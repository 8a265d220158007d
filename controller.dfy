/** The passport controller: the module-level state of the page script
    (`progreso`, `paginaActual`) together with the values it last wrote to
    the page and the snapshot it last saved to browser storage.  Each
    method is one event handler; Valid() says the rendered values always
    agree with the state. */
module Controller {
  import opened Wrappers
  import opened Text
  import opened Catalog
  import opened Progress
  import opened Navigation
  import opened Display

  class Passport {
    /** `progreso`: one flag per world. */
    var progress: Progress
    /** `paginaActual`. */
    var page: int
    /** The stored `progresoPasaporte` entry, if any. */
    var saved: Option<Progress>
    /** Text of the keyword dialog's message line. */
    var message: string
    /** Navigation bar as last shown by `mostrarPagina`. */
    var nav: NavView
    /** Badges and counter as last shown by `actualizarInsignias`. */
    var badges: seq<Badge>
    var counter: Counter

    ghost predicate Valid()
      reads this
    {
      && InRange(page)
      && nav == PageView(page)
      && badges == Badges(progress)
      && counter == MedalCounter(progress)
    }

    /** Browser storage is up to date: reloading the page would load the
        current progress. */
    ghost predicate Persisted()
      reads this
    {
      Load(saved) == progress
    }

    /** Page load: `cargarProgreso`, `actualizarInsignias`, `mostrarPagina(1)`. */
    constructor Start(stored: Option<Progress>)
      ensures Valid() && Persisted()
      ensures progress == Load(stored) && page == CoverPage
      ensures saved == stored && message == ""
    {
      progress := Load(stored);
      saved := stored;
      message := "";
      badges := Badges(Load(stored));
      counter := MedalCounter(Load(stored));
      page := CoverPage;
      nav := PageView(CoverPage);
    }

    /** `actualizarInsignias`: redraw every badge and the medal counter
        from the current progress. */
    method Render()
      modifies this
      ensures badges == Badges(progress) && counter == MedalCounter(progress)
      ensures progress == old(progress) && saved == old(saved) && message == old(message)
      ensures page == old(page) && nav == old(nav)
    {
      badges := Badges(progress);
      counter := MedalCounter(progress);
    }

    /** `paginaAnterior`. */
    method Previous()
      requires Valid()
      modifies this
      ensures Valid()
      ensures page == PreviousPage(old(page))
      ensures progress == old(progress) && saved == old(saved) && message == old(message)
    {
      if page > CoverPage {
        page := page - 1;
        nav := PageView(page);
      }
    }

    /** `paginaSiguiente`. */
    method Next()
      requires Valid()
      modifies this
      ensures Valid()
      ensures page == NextPage(old(page))
      ensures progress == old(progress) && saved == old(saved) && message == old(message)
    {
      if page < TotalPages {
        page := page + 1;
        nav := PageView(page);
      }
    }

    /** `irAPagina`: a target outside 1..7 is ignored. */
    method GoTo(target: int)
      requires Valid()
      modifies this
      ensures Valid()
      ensures page == GoToPage(old(page), target)
      ensures progress == old(progress) && saved == old(saved) && message == old(message)
    {
      if target >= CoverPage && target <= TotalPages {
        page := target;
        nav := PageView(page);
      }
    }

    /** The "open passport" button: straight to page 2. */
    method OpenPassport()
      requires Valid()
      modifies this
      ensures Valid()
      ensures page == OpenedPage
      ensures progress == old(progress) && saved == old(saved) && message == old(message)
    {
      page := OpenedPage;
      nav := PageView(page);
    }

    /** The restart button; `confirmed` is the answer of the confirmation
        dialog.  A declined restart changes nothing. */
    method Restart(confirmed: bool)
      requires Valid()
      modifies this
      ensures Valid()
      ensures confirmed ==> progress == InitialProgress() && saved == Some(InitialProgress())
      ensures old(Persisted()) || confirmed ==> Persisted()
      ensures confirmed ==> page == CoverPage
      ensures !confirmed ==> progress == old(progress) && saved == old(saved) && page == old(page)
      ensures message == old(message)
    {
      if confirmed {
        progress := InitialProgress();
        saved := Some(progress);
        Render();
        page := CoverPage;
        nav := PageView(page);
      }
    }

    /** One call of the keyword check's per-world callback: unlock `world`
        if `value` is its keyword and it is still locked, then save, redraw
        the badges and announce it. */
    method VisitWorld(value: string, world: World) returns (hit: bool)
      requires Valid()
      modifies this
      ensures Valid()
      ensures Scan(progress, if hit then Some(world.id) else None) == Visit(Scan(old(progress), None), value, world)
      ensures saved == if hit then Some(progress) else old(saved)
      ensures message == if hit then UnlockMessage(world.id) else old(message)
      ensures page == old(page)
    {
      hit := value == world.keyword && !(world.id in progress && progress[world.id]);
      if hit {
        progress := progress[world.id := true];
        saved := Some(progress);
        Render();
        message := UnlockMessage(world.id);
      }
    }

    /** `verificarPalabra`: normalise the input with `trim().toLowerCase()`,
        then run the check on the normalised text. */
    method VerifyWord(input: string) returns (unlocked: Option<WorldId>)
      requires Valid()
      modifies this
      ensures Valid()
      ensures progress == Attempt(old(progress), input).progress
      ensures unlocked == Attempt(old(progress), input).found
      ensures saved == if unlocked.Some? then Some(progress) else old(saved)
      ensures message == Message(unlocked)
      ensures page == old(page)
      ensures old(Persisted()) ==> Persisted()
    {
      var value := Normalize(input);
      unlocked := CheckKeyword(value, Worlds);
    }

    /** The body of `verificarPalabra` after normalisation: visit every
        world in catalog order and unlock each locked one whose keyword is
        `value`, saving and redrawing after each unlock; `found` is the
        source's `encontrado`.  Returns the last world unlocked. */
    method CheckKeyword(value: string, worlds: seq<World>) returns (unlocked: Option<WorldId>)
      requires Valid()
      modifies this
      ensures Valid()
      ensures Scan(progress, unlocked) == ScanFrom(Scan(old(progress), None), value, worlds)
      ensures saved == if unlocked.Some? then Some(progress) else old(saved)
      ensures message == Message(unlocked)
      ensures page == old(page)
    {
      var found := false;
      unlocked := None;
      var i := 0;
      while i < |worlds|
        invariant 0 <= i <= |worlds|
        invariant ScanFrom(Scan(progress, unlocked), value, worlds[i..]) ==
                  ScanFrom(Scan(old(progress), None), value, worlds)
        invariant found == unlocked.Some?
        invariant saved == if found then Some(progress) else old(saved)
        invariant message == if found then UnlockMessage(unlocked.value) else old(message)
        invariant Valid() && page == old(page)
      {
        assert worlds[i..][1..] == worlds[i + 1..];
        var hit := VisitWorld(value, worlds[i]);
        if hit {
          found := true;
          unlocked := Some(worlds[i].id);
        }
        i := i + 1;
      }
      if !found {
        message := WrongWordMessage;
      }
    }
  }

  /** Four presses of "next" from the cover land on page 5; three more
      reach page 7 and a further press stays there. */
  method NavigationScenario() {
    var app := new Passport.Start(None);
    app.Previous();
    assert app.page == 1 && app.nav.navHidden && app.nav.prevDisabled;
    app.Next(); app.Next(); app.Next(); app.Next();
    assert app.page == 5;
    app.Next(); app.Next(); app.Next();
    assert app.page == 7 && app.nav.nextDisabled;
    app.Next();
    assert app.page == 7;
    app.GoTo(9);
    assert app.page == 7;
    app.GoTo(3);
    assert app.page == 3 && !app.nav.navHidden;
  }

  /** Reloading the page after any keyword check restores the progress the
      check left, on the cover page. */
  method ReloadAfterVerify(app: Passport, input: string) returns (reloaded: Passport)
    requires app.Valid() && app.Persisted()
    modifies app
    ensures fresh(reloaded) && reloaded.Valid()
    ensures reloaded.progress == app.progress && reloaded.page == CoverPage
  {
    var _ := app.VerifyWord(input);
    reloaded := new Passport.Start(app.saved);
  }
}
