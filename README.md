# Passport state machine

A model of the logic in `scripts/main.js`, the page script of a
digital passport. The passport has four "worlds". Each world holds a medal
that is unlocked by typing the world's keyword. The page is a seven-page
booklet with previous and next buttons. The model covers three parts:

- **Progress** (`progress.dfy`): one flag per world (`progreso`). These
  operations change it:
  - start-up loading;
  - the keyword check `verificarPalabra`;
  - the confirmed restart.
- **Navigation** (`navigation.dfy`): the current page (`paginaActual`,
  1..7) and the guarded moves that change it.
- **Display** (`display.dfy`): the values the script writes to the page.
  These are the badge icon and status text, the medal counter, the page
  indicator with the button flags, and the keyword dialog's message.

`controller.dfy` holds the class `Passport`. Its fields are:

- the two state variables;
- the snapshot last saved to browser storage;
- the values last written to the page.

Each event handler is one method of the class. `Valid()` says the written
values always agree with the state. The keyword check is a `while` loop over
the worlds. It is proved against `Progress.ScanFrom`, a fold over the
catalog. `catalog.dfy` is the fixed catalog `claves`. `text.dfy` holds:

- the input normalisation `trim().toLowerCase()`;
- the capitalisation of a world name;
- the decimal page numbers.

### Several matching worlds

The keyword check's loop has no early exit. Every still-locked world whose
keyword equals the input is unlocked and saved. The message names the last
one (`Progress.ScanUnlocksEveryMatch`,
`Progress.SharedKeywordUnlocksBoth`).
The catalog's keywords are distinct (`Catalog.Distinct`), so at most one
world can match, and the check unlocks at most one world
(`Progress.ScanClosedForm`).

## Model

| member | source | states |
|---|---|---|
| Text.LowerChar | scripts/main.js:377 | An upper-case letter becomes its lower-case partner and nothing else changes. No result is an upper-case letter. White space stays white space. |
| Text.UpperChar | scripts/main.js:386 | A lower-case letter becomes an upper-case letter that lower-cases back to it. Every other character is unchanged. |
| Text.Lower | scripts/main.js:377 | `toLowerCase`: same length, each character lower-cased in place. |
| Text.TrimStart | scripts/main.js:377 | The result is the suffix left after a prefix made only of white space, and it does not start with white space. |
| Text.TrimEnd | scripts/main.js:377 | The result is the prefix left before a suffix made only of white space, and it does not end with white space. |
| Text.Trim | scripts/main.js:377 | `trim`: the result is the slice of the input that lies between a white-space prefix and a white-space suffix, and it has no white space at either end. |
| Text.Normalize | scripts/main.js:377 | `trim().toLowerCase()`: as long as the trimmed input, with no white space at either end and no upper-case letter. |
| Text.TrimIgnoresSurroundingSpace | scripts/main.js:377 | White space added at either end does not change the trimmed text. |
| Text.TrimIdempotent | scripts/main.js:377 | Trimming twice is trimming once. |
| Text.TrimKeepsUnpadded | scripts/main.js:377 | Text with no white space at its ends is its own trim. |
| Text.LowerKeepsLowerCase | scripts/main.js:377 | Text without upper-case letters is its own lower-case form. |
| Text.LowerSlice | scripts/main.js:377 | Lower-casing commutes with taking a slice. |
| Text.LowerTrim | scripts/main.js:377 | Trimming and lower-casing commute. |
| Text.LowerIdempotent | scripts/main.js:377 | Lower-casing twice is lower-casing once. |
| Text.NormalizeIdempotent | scripts/main.js:377 | Normalising an already normalised input changes nothing. |
| Text.NormalizeIgnoresCase | scripts/main.js:377 | Inputs that differ only in letter case normalise alike. |
| Text.NormalizeIgnoresSurroundingSpace | scripts/main.js:377 | Inputs that differ only in surrounding white space normalise alike. |
| Text.Capitalize | scripts/main.js:386 | Same length. The first character is upper-cased and the rest are kept; the empty string stays empty. |
| Text.CapitalizeRoundTrip | scripts/main.js:386 | A capitalised lower-case word turns back into the original when its first letter is lower-cased. |
| Text.Decimal | scripts/main.js:238 | The page number is written as a non-empty string of digits with no leading zero. |
| Text.DecimalRoundTrip | scripts/main.js:238 | Reading the written digits back gives the number. |
| Catalog.TotalMedals | scripts/main.js:180 | `Object.keys(claves).length` is the number of distinct world ids, which is the number of catalog worlds. |
| Catalog.IdsCount | scripts/main.js:2-23 | The catalog has four distinct ids. |
| Catalog.Distinct | scripts/main.js:2-23 | No two worlds share an id, and no two share a keyword. |
| Catalog.KeywordsAreNormal | scripts/main.js:2-23 | Every keyword equals its own trimmed, lower-cased form, so each one can be entered. |
| Progress.IsUnlocked | scripts/main.js:148 | `progreso[mundo]` read as a condition: a missing key reads as locked, and a present key reads as its flag. |
| Progress.InitialProgress | scripts/main.js:127-132 | The first-run map has exactly the catalog ids as keys, and every world is locked. |
| Progress.Load | scripts/main.js:122-134 | A stored snapshot is used as it is. Without one, every catalog world is locked. |
| Progress.UnlockedIds | scripts/main.js:177-179 | The set of ids whose flag is true; its members are keys of the map. |
| Progress.MedalCount | scripts/main.js:177-179 | The number of true values in the map, which is never more than the number of its keys. |
| Progress.CountAtMostTotal | scripts/main.js:177-180 | When the keys are exactly the catalog ids, the count is at most the total. |
| Progress.CountAfterUnlock | scripts/main.js:177-179 | Unlocking one locked world adds exactly one to the count. |
| Progress.CountInitial | scripts/main.js:127-132 | The first-run map counts zero medals. |
| Progress.Visit | scripts/main.js:381-382 | One call of the per-world callback. It adds at most the visited world's key, and it reports nothing new or that world. |
| Progress.ScanFrom | scripts/main.js:380-397 | The pass never removes a key and never locks a world. If it reports nothing, nothing changed. A reported world is unlocked. |
| Progress.ScanUnlocksEveryMatch | scripts/main.js:380-397 | No early exit: every matching world that starts locked ends unlocked, even when keywords repeat. |
| Progress.SharedKeywordUnlocksBoth | scripts/main.js:380-397 | Two locked worlds with the same keyword both unlock, and the later one is reported. |
| Progress.Attempt | scripts/main.js:376-403 | `verificarPalabra` on a progress map and a raw input. It never locks a world. When nothing is reported the map is unchanged, and a reported world is a catalog world that is now unlocked. |
| Progress.ScanClosedForm | scripts/main.js:380-397 | With distinct keywords, the pass changes nothing when no locked world matches. Otherwise it unlocks exactly the matching world and reports it. |
| Progress.AttemptUnlocks | scripts/main.js:376-397 | Entering a locked world's keyword unlocks that world and reports it. No other flag changes. |
| Progress.AttemptNoMatch | scripts/main.js:376-402 | The "wrong or already entered" outcome happens iff no locked world has the normalised input as its keyword. It happens iff the map is unchanged. |
| Progress.AttemptTwice | scripts/main.js:381 | Repeating the same input is refused and changes nothing. |
| Progress.ScanStaysInWorlds | scripts/main.js:380-383 | The pass adds only keys of the visited worlds and reports only one of them. |
| Progress.AttemptWellFormed | scripts/main.js:380-383 | A map keyed by exactly the catalog ids keeps exactly those keys. |
| Progress.AttemptCount | scripts/main.js:380-384 | The medal count rises by one on an unlock and stays the same otherwise. |
| Progress.AttemptIgnoresCase | scripts/main.js:377 | Inputs that differ only in letter case have the same outcome. |
| Progress.AttemptIgnoresSurroundingSpace | scripts/main.js:377 | Inputs that differ only in surrounding white space have the same outcome. |
| Navigation.PreviousPage | scripts/main.js:259-266 | The page changes iff it is above 1, then by exactly one step back, and stays within 1..7. |
| Navigation.NextPage | scripts/main.js:268-275 | The page changes iff it is below 7, then by exactly one step forward, and stays within 1..7. |
| Navigation.GoToPage | scripts/main.js:460-465 | A target in 1..7 becomes the page. Any other target leaves the page unchanged. |
| Navigation.PageView | scripts/main.js:238-256 | Previous is disabled iff the page is 1, next is disabled iff it is 7, and the bar is hidden iff the page is 1. |
| Navigation.Indicator | scripts/main.js:238 | The indicator text ends in `" / 7"`, and what comes before is a numeral that reads back as the page. |
| Navigation.IndicatorNamesPage | scripts/main.js:238 | The indicator is the page's numeral followed by `" / 7"`, and the numeral reads back as the page. |
| Navigation.DisabledMeansNoOp | scripts/main.js:241-248 | A button is disabled exactly on the page where pressing it would do nothing. |
| Navigation.NextTimesClamps | scripts/main.js:268-275 | Pressing next k times climbs k pages, stopping at page 7. |
| Navigation.NextFromCover | scripts/main.js:268-275 | From the cover, four presses reach page 5, and seven or more reach page 7. |
| Display.BadgeFor | scripts/main.js:148-168 | The badge shows unlocked iff the world's flag is true. A missing key reads as locked. |
| Display.Badges | scripts/main.js:143-169 | One badge per catalog world, in catalog order. Each badge shows unlocked iff its world is unlocked. |
| Display.BadgeTextShowsState | scripts/main.js:148-168 | The medal icon, and the "Desbloqueado" status, each appear iff the world is unlocked. |
| Display.BadgeShowsWorld | scripts/main.js:143-169 | The i-th badge shows the state of the i-th catalog world. |
| Display.MedalCounter | scripts/main.js:176-191 | The counter shows the number of true flags over the number of catalog worlds. When the keys are the catalog ids, the count is at most the total. |
| Display.BadgesAfterAttempt | scripts/main.js:381-384 | A successful check turns exactly the reported world's badge from locked to unlocked. Every other badge is unchanged. |
| Display.CounterAfterAttempt | scripts/main.js:380-384 | The counter gains one on an unlock and is unchanged otherwise; the total never changes. |
| Display.BadgesAfterRestart | scripts/main.js:412-419 | After a restart every badge is locked and the counter reads 0 of 4. |
| Display.UnlockMessage | scripts/main.js:386-387 | The success message is the fixed prefix, the capitalised id and the fixed suffix. |
| Display.UnlockMessageNotRefusal | scripts/main.js:386-402 | No success message equals the refusal message. |
| Display.Message | scripts/main.js:386-402 | The dialog shows the refusal message iff no world was unlocked. |
| Display.UnlockMessageNamesWorld | scripts/main.js:386-387 | The world id can be recovered from its success message. |
| Display.FirstVisitScenario | scripts/main.js:376-403 | From the first-run map, any input that normalises to a keyword unlocks that world. The counter then reads 1, and the message names that world. |
| Display.RepeatVisitRefused | scripts/main.js:381-402 | The keyword of a world just unlocked is refused afterwards, and the map is unchanged. |
| Controller.Passport.Start | scripts/main.js:444-457 | Page load: the progress is the loaded map, the page is the cover, and the badges, counter and bar agree with them. Storage is up to date. |
| Controller.Passport.Render | scripts/main.js:142-173 | Every badge and the counter are redrawn from the current progress, and nothing else changes. |
| Controller.Passport.Previous | scripts/main.js:259-266 | The page becomes `PreviousPage` of the old page, and the bar is redrawn for it. Progress and storage are unchanged. |
| Controller.Passport.Next | scripts/main.js:268-275 | The page becomes `NextPage` of the old page, and the bar is redrawn for it. Progress and storage are unchanged. |
| Controller.Passport.GoTo | scripts/main.js:460-465 | The page becomes `GoToPage` of the old page and the target. Progress and storage are unchanged. |
| Controller.Passport.OpenPassport | scripts/main.js:317-320 | The page becomes 2 and the bar is redrawn for it. |
| Controller.Passport.Restart | scripts/main.js:406-423 | If confirmed: every world is locked, that map is saved, the badges are redrawn and the page returns to 1. If declined: nothing changes. Afterwards storage is up to date if it was before or if the restart was confirmed. |
| Controller.Passport.VisitWorld | scripts/main.js:381-396 | One callback: a matching locked world is unlocked, saved, redrawn and announced. Otherwise nothing changes. |
| Controller.Passport.CheckKeyword | scripts/main.js:378-402 | The loop ends in the state `ScanFrom` computes. It saves iff it unlocked something, and the message is the last unlock's or the refusal. |
| Controller.Passport.VerifyWord | scripts/main.js:376-403 | The new progress and the reported world are `Attempt` of the old progress and the raw input. The input is saved iff a world unlocked, and the message matches the outcome. If storage was up to date before, it still is. |
| Controller.ReloadAfterVerify | scripts/main.js:122-138 | After any keyword check, reloading the page restores exactly the progress the check left, on the cover page. |

## Left out

- DOM work is not modelled. This covers element lookups, `classList` and `style` edits, colours, `console` output, which page element is shown (scripts/main.js:222-235), the world information dialog and its text table `mundosInfo`. Only the values written to the page are modelled.
- Display.BadgeFor: one `Badge` stands for the badge, the status text and the optional medal element. Whether the medal element exists is not modelled.
- Browser storage and JSON are not modelled. The stored `progresoPasaporte` entry is the field `saved`, an optional map of booleans. It is written exactly where the script calls `guardarProgreso`. `Passport.Persisted` says that loading it would give the current progress.
- Progress.Load: an empty stored string, which the script treats as absent, is not modelled. Neither is text that `JSON.parse` rejects.
- Progress.MedalCount: this counts values that are `true`. A hand-edited stored map with other truthy values, which `filter` would also count, is outside the model.
- Text.Lower: the letter tables cover ASCII and Latin-1, not JavaScript's full Unicode case mapping.
- Text.Trim: the white-space table holds space, tab, line feed, carriage return, vertical tab, form feed, no-break space and the byte-order mark. Other Unicode white space is not included.
- Navigation.GoToPage: the target is an integer. A fractional number such as 2.5 passes the script's range test and is not modelled.
- Controller.Passport.GoTo: integer targets only, as for `GoToPage`.
- Event delivery is not modelled: click, touch and key listeners, and one tap firing both a touch and a click.
- The two-second auto-close timer of the keyword dialog is not modelled.
- The confirmation dialog of the restart is the boolean argument `confirmed` of `Restart`.
- The handler that opens the keyword dialog (scripts/main.js:323-328) is not modelled. It clears the input and the message, and changes no state of the machine.
- Controller.Passport.CheckKeyword: the world list is a parameter, and `VerifyWord` passes the catalog. The proof is the same for any list.
- Text.Decimal: only non-negative integers, which covers every page number.
