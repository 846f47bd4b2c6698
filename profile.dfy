/**
 * profile.js: the daily visit streak kept in the browser's storage, the daily limit it earns,
 * the avatar initials, and the profile menu's open/hidden state.
 */
module Profile {

  import opened Optional
  import opened Numbers
  import opened Text

  /**
   * The stored `site_meta_v1` object. Days are day numbers (the date `todayStr` formats,
   * counted in days); a field that is missing or falsy is `None`.
   */
  datatype Meta = Meta(lastVisit: Option<int>, streak: Option<int>, addedToday: Option<int>)

  /** What `loadMeta` gives when nothing is stored or the stored text does not parse. */
  const EmptyMeta := Meta(None, None, None)

  /** `refreshDaily` on the meta `m` when today is day `today`. */
  function DailyRefreshed(m: Meta, today: int): Meta
  {
    if m.lastVisit.None? then Meta(Some(today), Some(1), Some(0))
    else if m.lastVisit.value == today then m
    else
      var diff := today - m.lastVisit.value;
      Meta(Some(today), Some(if diff == 1 then m.streak.GetOr(0) + 1 else 1), Some(0))
  }

  /**
   * After a refresh the last visit is today. A first visit starts a streak of one; a visit on the
   * same day changes nothing; a visit on the next day extends the streak by one; any other day
   * restarts it at one. A new day also resets the day's additions.
   */
  lemma DailyRefreshedCases(m: Meta, today: int)
    ensures DailyRefreshed(m, today).lastVisit == Some(today)
    ensures m.lastVisit.None? ==> DailyRefreshed(m, today) == Meta(Some(today), Some(1), Some(0))
    ensures m.lastVisit == Some(today) ==> DailyRefreshed(m, today) == m
    ensures m.lastVisit.Some? && m.lastVisit.value != today ==>
      && DailyRefreshed(m, today).addedToday == Some(0)
      && DailyRefreshed(m, today).streak ==
           Some(if today == m.lastVisit.value + 1 then m.streak.GetOr(0) + 1 else 1)
  {
  }

  /** A second refresh on the same day changes nothing. */
  lemma DailyRefreshedIdempotent(m: Meta, today: int)
    ensures DailyRefreshed(DailyRefreshed(m, today), today) == DailyRefreshed(m, today)
  {
  }

  /** The meta after a visit on each of `days`, in order. */
  function Visits(m: Meta, days: seq<int>): Meta
    decreases |days|
  {
    if days == [] then m else Visits(DailyRefreshed(m, days[0]), days[1..])
  }

  /** The `n` consecutive days from day `d` on. */
  function Run(d: int, n: nat): (days: seq<int>)
    ensures |days| == n && forall i :: 0 <= i < n ==> days[i] == d + i
  {
    seq(n, i => d + i)
  }

  /** Visiting on each of the `n` days that follow the last visit adds `n` to the streak. */
  lemma {:induction false} ConsecutiveVisits(m: Meta, d: int, n: nat)
    requires m.lastVisit == Some(d - 1)
    requires n > 0
    ensures Visits(m, Run(d, n)) == Meta(Some(d + n - 1), Some(m.streak.GetOr(0) + n), Some(0))
    decreases n
  {
    var next := DailyRefreshed(m, d);
    assert Run(d, n)[1..] == Run(d + 1, n - 1);
    if n > 1 {
      ConsecutiveVisits(next, d + 1, n - 1);
    }
  }

  /** A first visit followed by a visit on each following day: after `n` days the streak is `n`. */
  lemma FirstVisitsStreak(d: int, n: nat)
    requires n > 0
    ensures Visits(EmptyMeta, Run(d, n)).streak == Some(n)
  {
    var first := DailyRefreshed(EmptyMeta, d);
    assert Run(d, n)[1..] == Run(d + 1, n - 1);
    if n > 1 {
      ConsecutiveVisits(first, d + 1, n - 1);
    }
  }

  /** The limit before any streak bonus. */
  const BaseLimit := 10

  /** The streak `getDailyLimit` counts: `meta.streak || 1`. */
  function LimitStreak(m: Meta): int
  {
    if m.streak.None? || m.streak.value == 0 then 1 else m.streak.value
  }

  /**
   * `getDailyLimit(meta)`: five more for each full three days of streak. `Math.floor` of a
   * quotient by 3 is the Euclidean quotient here, the divisor being positive.
   */
  function DailyLimit(m: Meta): int
  {
    BaseLimit + LimitStreak(m) / 3 * 5
  }

  /**
   * The limit is never below the base for a streak that is not negative, it is the base plus a
   * multiple of five, and a longer streak never earns less.
   */
  lemma DailyLimitBounds(m: Meta, m': Meta)
    ensures LimitStreak(m) >= 0 ==> DailyLimit(m) >= BaseLimit
    ensures (DailyLimit(m) - BaseLimit) % 5 == 0
    ensures LimitStreak(m) <= LimitStreak(m') ==> DailyLimit(m) <= DailyLimit(m')
  {
    var a, b := LimitStreak(m), LimitStreak(m');
    if a <= b {
      assert a / 3 <= b / 3 by {
        assert a == 3 * (a / 3) + a % 3;
        assert b == 3 * (b / 3) + b % 3;
      }
    }
  }

  /** After `n` days in a row from a first visit the limit is 10 plus 5 for every three days. */
  lemma DailyLimitAfterRun(d: int, n: nat)
    requires n > 0
    ensures DailyLimit(Visits(EmptyMeta, Run(d, n))) == BaseLimit + n / 3 * 5
  {
    FirstVisitsStreak(d, n);
  }

  /** `initials(name)`: "GK" for a blank name, else the first letters of the first two words, upper-cased. */
  function Initials(name: string): (r: string)
  {
    var parts := Words(Trim(name));
    if parts == [] then "GK"
    else
      var i := [parts[0][0]] + (if |parts| > 1 then [parts[1][0]] else []);
      ToUpper(i)
  }

  /** A string that starts with a non-space character: its first word starts with that character. */
  lemma FirstWordStart(s: string)
    requires s != [] && !IsSpace(s[0])
    ensures Words(s) != [] && Words(s)[0][0] == s[0]
  {
  }

  /**
   * A name that is all white space gets "GK"; any other name gets one or two letters, the first
   * being the name's first non-space character upper-cased, and two exactly when the name has a
   * second word, the second letter being that word's first character upper-cased.
   */
  lemma InitialsOfName(name: string)
    ensures AllSpace(name) ==> Initials(name) == "GK"
    ensures !AllSpace(name) ==>
      && 1 <= |Initials(name)| <= 2
      && (|Initials(name)| == 2 <==> |Words(Trim(name))| >= 2)
      && Initials(name)[0] == UpperChar(name[SpanStart(name)])
    ensures |Words(Trim(name))| >= 2 ==>
      |Initials(name)| == 2 && Initials(name)[1] == UpperChar(Words(Trim(name))[1][0])
  {
    var t := Trim(name);
    if !AllSpace(name) {
      var i := TrimSlice(name);
      assert i == SpanStart(name);
      assert t[0] == name[i];
      FirstWordStart(t);
    }
  }

  /** The letters are upper case already: upper-casing them again changes nothing. */
  lemma InitialsUpperCase(name: string)
    ensures ToUpper(Initials(name)) == Initials(name)
  {
    var r := Initials(name);
    forall k | 0 <= k < |r|
      ensures UpperChar(r[k]) == r[k]
    {
    }
  }

  /** The profile shown: the name, its initials, the streak and the daily limit. */
  datatype ProfileView = ProfileView(name: string, initials: string, streak: Option<int>, limit: int)

  /** `user.name || "Гость"`. */
  function DisplayName(userName: Option<string>): (name: string)
    ensures name != []
    ensures userName.Some? && userName.value != [] ==> name == userName.value
    ensures userName.None? || userName.value == [] ==> name == "Гость"
  {
    if userName.None? || userName.value == [] then "Гость" else userName.value
  }

  /** The storage slot holding the meta, which `refreshDaily` reads and writes back. */
  class MetaStore {

    var stored: Meta

    constructor (m: Meta)
      ensures stored == m
    {
      stored := m;
    }

    /** `refreshDaily()`: the refreshed meta is returned and, on a first visit or a new day, saved. */
    method RefreshDaily(today: int) returns (m: Meta)
      modifies this
      ensures m == DailyRefreshed(old(stored), today)
      ensures stored == m
    {
      m := stored;
      if m.lastVisit.None? {
        var init := Meta(Some(today), Some(1), Some(0));
        stored := init;
        return init;
      }
      if m.lastVisit.value == today {
        return;
      }
      var diff := today - m.lastVisit.value;
      m := m.(streak := Some(if diff == 1 then m.streak.GetOr(0) + 1 else 1));
      m := m.(lastVisit := Some(today));
      m := m.(addedToday := Some(0));
      stored := m;
    }

    /** `hydrateProfile()`: the name, initials, streak and limit the menu shows. */
    method Hydrate(userName: Option<string>, today: int) returns (v: ProfileView)
      modifies this
      ensures stored == DailyRefreshed(old(stored), today)
      ensures v.name == DisplayName(userName) && v.initials == Initials(v.name)
      ensures v.streak == stored.streak && v.limit == DailyLimit(stored)
      ensures old(stored).streak.GetOr(0) >= 0 ==> v.limit >= BaseLimit
    {
      var name := DisplayName(userName);
      var meta := RefreshDaily(today);
      var limit := DailyLimit(meta);
      DailyLimitBounds(meta, meta);
      v := ProfileView(name, Initials(name), meta.streak, limit);
    }
  }

  /** The menu's DOM state: which elements exist and their `aria-hidden`/`aria-expanded` values. */
  datatype Menu = Menu(
    menuPresent: bool,
    buttonPresent: bool,
    ariaHidden: Option<string>,
    ariaExpanded: Option<string>)

  /** `toggleMenu` reads the menu as open only when `aria-hidden` is exactly "false". */
  predicate IsOpen(m: Menu)
  {
    m.ariaHidden == Some("false")
  }

  /** The button says it is expanded exactly when the menu is open. */
  predicate Consistent(m: Menu)
  {
    IsOpen(m) <==> m.ariaExpanded == Some("true")
  }

  /** `openMenu()`. */
  function Opened(m: Menu): Menu
  {
    if !m.menuPresent || !m.buttonPresent then m
    else m.(ariaHidden := Some("false"), ariaExpanded := Some("true"))
  }

  /** `closeMenu()`. */
  function Closed(m: Menu): Menu
  {
    if !m.menuPresent || !m.buttonPresent then m
    else m.(ariaHidden := Some("true"), ariaExpanded := Some("false"))
  }

  /** `toggleMenu()`. */
  function Toggled(m: Menu): Menu
  {
    if !m.menuPresent then m
    else if !IsOpen(m) then Opened(m) else Closed(m)
  }

  /**
   * With both elements on the page, opening shows the menu and closing hides it, each a second
   * time changing nothing; a toggle flips the menu and two toggles restore whether it is open.
   * Without them nothing changes. Every step keeps the button's state in line with the menu's.
   */
  lemma MenuSteps(m: Menu)
    ensures m.menuPresent && m.buttonPresent ==>
      && IsOpen(Opened(m)) && !IsOpen(Closed(m))
      && IsOpen(Toggled(m)) == !IsOpen(m)
      && IsOpen(Toggled(Toggled(m))) == IsOpen(m)
    ensures Opened(Opened(m)) == Opened(m) && Closed(Closed(m)) == Closed(m)
    ensures !m.menuPresent || !m.buttonPresent ==> Opened(m) == m && Closed(m) == m && Toggled(m) == m
    ensures Consistent(m) ==> Consistent(Opened(m)) && Consistent(Closed(m)) && Consistent(Toggled(m))
  {
  }

  /** The profile menu and its button as the page holds them. */
  class ProfileMenu {

    var menuPresent: bool
    var buttonPresent: bool
    var ariaHidden: Option<string>
    var ariaExpanded: Option<string>

    function State(): Menu
      reads this
    {
      Menu(menuPresent, buttonPresent, ariaHidden, ariaExpanded)
    }

    constructor (m: Menu)
      ensures State() == m
    {
      menuPresent, buttonPresent, ariaHidden, ariaExpanded := m.menuPresent, m.buttonPresent, m.ariaHidden, m.ariaExpanded;
    }

    method OpenMenu()
      modifies this
      ensures State() == Opened(old(State()))
    {
      if !menuPresent || !buttonPresent {
        return;
      }
      ariaHidden := Some("false");
      ariaExpanded := Some("true");
    }

    method CloseMenu()
      modifies this
      ensures State() == Closed(old(State()))
    {
      if !menuPresent || !buttonPresent {
        return;
      }
      ariaHidden := Some("true");
      ariaExpanded := Some("false");
    }

    method ToggleMenu()
      modifies this
      ensures State() == Toggled(old(State()))
    {
      if !menuPresent {
        return;
      }
      var hidden := ariaHidden != Some("false");
      if hidden {
        OpenMenu();
      } else {
        CloseMenu();
      }
    }

    /** A click anywhere on the page: one outside the menu and its button closes the menu. */
    method OnDocumentClick(inside: bool)
      modifies this
      ensures State() == if !menuPresent || !buttonPresent || inside then old(State()) else Closed(old(State()))
    {
      if !menuPresent || !buttonPresent {
        return;
      }
      if inside {
        return;
      }
      CloseMenu();
    }

    /** A key press: Escape closes the menu. */
    method OnKeyDown(key: string)
      modifies this
      ensures State() == if key == "Escape" then Closed(old(State())) else old(State())
    {
      if key == "Escape" {
        CloseMenu();
      }
    }
  }
}
