/** Page navigation of the passport: the page number runs over
    1..TotalPages, page 1 being the cover, and each move is guarded so that
    it never leaves that range.  PageView is what showing a page writes to
    the navigation bar. */
module Navigation {
  import opened Text

  const TotalPages: nat := 7
  const CoverPage: nat := 1
  /** The page the "open passport" button jumps to. */
  const OpenedPage: nat := 2

  predicate InRange(n: int) {
    1 <= n <= TotalPages
  }

  /** `paginaAnterior`: one page back, unless on the first page. */
  function PreviousPage(n: int): (r: int)
    ensures InRange(n) ==> InRange(r)
    ensures r != n <==> n > 1
    ensures r == n || r == n - 1
  {
    if n > CoverPage then n - 1 else n
  }

  /** `paginaSiguiente`: one page forward, unless on the last page. */
  function NextPage(n: int): (r: int)
    ensures InRange(n) ==> InRange(r)
    ensures r != n <==> n < TotalPages
    ensures r == n || r == n + 1
  {
    if n < TotalPages then n + 1 else n
  }

  /** `irAPagina`: jump to `target` if it is a page, else stay. */
  function GoToPage(n: int, target: int): (r: int)
    ensures InRange(n) ==> InRange(r)
    ensures InRange(target) ==> r == target
    ensures !InRange(target) ==> r == n
  {
    if CoverPage <= target && target <= TotalPages then target else n
  }

  /** What showing page `n` writes to the navigation bar. */
  datatype NavView = NavView(indicator: string, prevDisabled: bool, nextDisabled: bool, navHidden: bool)

  /** The `"n / 7"` indicator text. */
  function Indicator(n: nat): (s: string)
    ensures |s| > 4 && s[|s| - 4..] == " / 7"
    ensures IsDigitString(s[..|s| - 4]) && DecimalValue(s[..|s| - 4]) == n
  {
    var d := Decimal(n);
    var s := d + " / " + Decimal(TotalPages);
    DecimalRoundTrip(n);
    assert s[..|s| - 4] == d;
    s
  }

  function PageView(n: nat): (v: NavView)
    ensures v.prevDisabled <==> n == CoverPage
    ensures v.nextDisabled <==> n == TotalPages
    ensures v.navHidden <==> n == CoverPage
  {
    NavView(Indicator(n), n == CoverPage, n == TotalPages, n == CoverPage)
  }

  /** The indicator names the page: its leading numeral reads back as `n`. */
  lemma IndicatorNamesPage(n: nat)
    ensures var s := Indicator(n);
            var d := Decimal(n);
            s[..|d|] == d && DecimalValue(d) == n && s[|d|..] == " / 7"
    ensures 1 <= n <= 9 ==> Indicator(n) == [DigitChar(n)] + " / 7"
  {
    DecimalRoundTrip(n);
  }

  /** The "previous" button is disabled exactly on the pages where going
      back does nothing, and "next" likewise. */
  lemma DisabledMeansNoOp(n: nat)
    requires InRange(n)
    ensures PageView(n).prevDisabled <==> PreviousPage(n) == n
    ensures PageView(n).nextDisabled <==> NextPage(n) == n
  {
  }

  /** `k` presses of "next" from page `n`. */
  function NextTimes(n: int, k: nat): int {
    if k == 0 then n else NextPage(NextTimes(n, k - 1))
  }

  /** Repeated "next" climbs one page per press and stops at the last page. */
  lemma {:induction false} NextTimesClamps(n: int, k: nat)
    requires InRange(n)
    ensures NextTimes(n, k) == if n + k < TotalPages then n + k else TotalPages
  {
    if k > 0 {
      NextTimesClamps(n, k - 1);
    }
  }

  /** From the cover, four presses reach page 5 and seven reach page 7,
      where further presses stay. */
  lemma NextFromCover()
    ensures NextTimes(CoverPage, 4) == 5
    ensures NextTimes(CoverPage, 7) == TotalPages
    ensures NextTimes(CoverPage, 10) == TotalPages
  {
    NextTimesClamps(CoverPage, 4);
    NextTimesClamps(CoverPage, 7);
    NextTimesClamps(CoverPage, 10);
  }
}
