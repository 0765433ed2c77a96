/** The theme context (`themeContext.tsx`): fourteen themes, one per light or
    dark mode and colour scheme, the provider's state, the operations that
    change it, and the effect that mirrors it onto the document's classes
    and into local storage. The document and the storage are values here. */
module Theme {
  import opened Wrappers
  import opened Text
  import Lists

  datatype Mode = Light | Dark

  datatype Scheme = Blue | Green | Purple | Pink | Orange | Red | Teal

  function ModeName(m: Mode): string {
    match m
    case Light => "light"
    case Dark => "dark"
  }

  function SchemeName(s: Scheme): string {
    match s
    case Blue => "blue"
    case Green => "green"
    case Purple => "purple"
    case Pink => "pink"
    case Orange => "orange"
    case Red => "red"
    case Teal => "teal"
  }

  function ModeOf(name: string): (r: Option<Mode>)
    ensures r.Some? ==> ModeName(r.value) == name
  {
    if name == "light" then Some(Light)
    else if name == "dark" then Some(Dark)
    else None
  }

  function SchemeOf(name: string): (r: Option<Scheme>)
    ensures r.Some? ==> SchemeName(r.value) == name
  {
    if name == "blue" then Some(Blue)
    else if name == "green" then Some(Green)
    else if name == "purple" then Some(Purple)
    else if name == "pink" then Some(Pink)
    else if name == "orange" then Some(Orange)
    else if name == "red" then Some(Red)
    else if name == "teal" then Some(Teal)
    else None
  }

  lemma ModeNameRoundTrip(m: Mode)
    ensures ModeOf(ModeName(m)) == Some(m)
    ensures '-' !in ModeName(m)
  {
  }

  lemma SchemeNameRoundTrip(s: Scheme)
    ensures SchemeOf(SchemeName(s)) == Some(s)
    ensures '-' !in SchemeName(s)
  {
  }

  /** The theme's name, `${mode}-${colorScheme}`. */
  function ThemeValue(m: Mode, s: Scheme): string {
    ModeName(m) + "-" + SchemeName(s)
  }

  /** Reads a theme name back into its mode and colour scheme. */
  function ParseTheme(t: string): (r: Option<(Mode, Scheme)>)
    ensures r.Some? ==> t == ThemeValue(r.value.0, r.value.1)
  {
    var parts := Split(t, '-');
    if |parts| != 2 then None
    else
      match (ModeOf(parts[0]), SchemeOf(parts[1]))
      case (Some(m), Some(s)) =>
        SplitJoin(t, '-');
        Some((m, s))
      case _ => None
  }

  lemma {:induction false} ParseThemeValue(m: Mode, s: Scheme)
    ensures ParseTheme(ThemeValue(m, s)) == Some((m, s))
  {
    ModeNameRoundTrip(m);
    SchemeNameRoundTrip(s);
    var parts := [ModeName(m), SchemeName(s)];
    assert Join(parts, '-') == ThemeValue(m, s) by {
      assert Join(parts[1..], '-') == SchemeName(s);
    }
    SplitOfJoin(parts, '-');
  }

  /** Different modes or colour schemes give different theme names. */
  lemma ThemeValueInjective(m1: Mode, s1: Scheme, m2: Mode, s2: Scheme)
    requires ThemeValue(m1, s1) == ThemeValue(m2, s2)
    ensures m1 == m2 && s1 == s2
  {
    ParseThemeValue(m1, s1);
    ParseThemeValue(m2, s2);
  }

  // ---------------------------------------------------------------- the table

  datatype Entry = Entry(value: string, caption: string, mode: Mode, scheme: Scheme)

  function ModeLabel(m: Mode): string {
    match m
    case Light => "Licht"
    case Dark => "Dunkel"
  }

  function SchemeLabel(s: Scheme): string {
    match s
    case Blue => "Blau"
    case Green => "Grün"
    case Purple => "Lila"
    case Pink => "Rosa"
    case Orange => "Orange"
    case Red => "Rot"
    case Teal => "Türkis"
  }

  function ModeAt(i: nat): Mode {
    if i == 0 then Light else Dark
  }

  function SchemeAt(i: nat): Scheme {
    if i == 0 then Blue
    else if i == 1 then Green
    else if i == 2 then Purple
    else if i == 3 then Pink
    else if i == 4 then Orange
    else if i == 5 then Red
    else Teal
  }

  function SchemeIndex(s: Scheme): (i: nat)
    ensures i < 7 && SchemeAt(i) == s
  {
    match s
    case Blue => 0
    case Green => 1
    case Purple => 2
    case Pink => 3
    case Orange => 4
    case Red => 5
    case Teal => 6
  }

  function ModeIndex(m: Mode): (i: nat)
    ensures i < 2 && ModeAt(i) == m
  {
    match m
    case Light => 0
    case Dark => 1
  }

  function MakeEntry(m: Mode, s: Scheme): Entry {
    Entry(ThemeValue(m, s), ModeLabel(m) + " " + SchemeLabel(s), m, s)
  }

  /** `themes`: the seven light themes, then the seven dark ones, each in the
      order blue, green, purple, pink, orange, red, teal. */
  const Themes: seq<Entry> := [
    MakeEntry(Light, Blue),
    MakeEntry(Light, Green),
    MakeEntry(Light, Purple),
    MakeEntry(Light, Pink),
    MakeEntry(Light, Orange),
    MakeEntry(Light, Red),
    MakeEntry(Light, Teal),
    MakeEntry(Dark, Blue),
    MakeEntry(Dark, Green),
    MakeEntry(Dark, Purple),
    MakeEntry(Dark, Pink),
    MakeEntry(Dark, Orange),
    MakeEntry(Dark, Red),
    MakeEntry(Dark, Teal)
  ]

  /** Every mode and colour scheme has its entry, at position `7 * mode + scheme`. */
  lemma EntryPosition(m: Mode, s: Scheme)
    ensures Themes[7 * ModeIndex(m) + SchemeIndex(s)] == MakeEntry(m, s)
  {
    var i := 7 * ModeIndex(m) + SchemeIndex(s);
    assert i / 7 == ModeIndex(m) && i % 7 == SchemeIndex(s);
  }

  lemma EndsOfTable()
    ensures Themes[0].value == "light-blue" && Themes[0].caption == "Licht Blau"
    ensures Themes[13].value == "dark-teal" && Themes[13].caption == "Dunkel Türkis"
  {
    assert Themes[0] == MakeEntry(Light, Blue);
    assert Themes[13] == MakeEntry(Dark, Teal);
  }

  /** Entry `i` of the table is the theme of mode `i / 7` and scheme `i % 7`. */
  lemma TableShape()
    ensures |Themes| == 14
    ensures forall i :: 0 <= i < 14 ==> Themes[i] == MakeEntry(ModeAt(i / 7), SchemeAt(i % 7))
  {
  }

  /** The table entry named `t`, found by reading the name. */
  function Lookup(t: string): (r: Option<Entry>)
    ensures r.Some? ==> r.value.value == t && r.value == MakeEntry(r.value.mode, r.value.scheme)
    ensures r.None? <==> forall m, s :: ThemeValue(m, s) != t
  {
    match ParseTheme(t)
    case None =>
      assert forall m, s :: ThemeValue(m, s) != t by {
        forall m, s ensures ThemeValue(m, s) != t {
          ParseThemeValue(m, s);
        }
      }
      None
    case Some((m, s)) => Some(MakeEntry(m, s))
  }

  lemma LookupValue(m: Mode, s: Scheme)
    ensures Lookup(ThemeValue(m, s)) == Some(MakeEntry(m, s))
  {
    ParseThemeValue(m, s);
  }

  function HasValue(t: string): Entry -> bool {
    (e: Entry) => e.value == t
  }

  /** Reading the name finds what `themes.find(t => t.value === name)`
      finds. */
  lemma LookupIsFind(t: string)
    ensures Lookup(t) == Lists.Find(Themes, HasValue(t))
  {
    if Lookup(t).None? {
      FindUnlisted(t);
    } else {
      var e := Lookup(t).value;
      FindListed(t, e.mode, e.scheme);
    }
  }

  lemma FindUnlisted(t: string)
    requires forall m, s :: ThemeValue(m, s) != t
    ensures Lists.Find(Themes, HasValue(t)) == None
  {
    TableShape();
    forall i | 0 <= i < |Themes| ensures !HasValue(t)(Themes[i]) {
      assert Themes[i].value == ThemeValue(ModeAt(i / 7), SchemeAt(i % 7));
    }
    FindNone(Themes, HasValue(t));
  }

  lemma FindNone(xs: seq<Entry>, p: Entry -> bool)
    requires forall i :: 0 <= i < |xs| ==> !p(xs[i])
    ensures Lists.Find(xs, p) == None
  {
    assert forall x :: x in xs ==> !p(x);
  }

  lemma FindListed(t: string, m: Mode, s: Scheme)
    requires t == ThemeValue(m, s)
    ensures Lists.Find(Themes, HasValue(t)) == Some(MakeEntry(m, s))
  {
    TableShape();
    var i := 7 * ModeIndex(m) + SchemeIndex(s);
    EntryPosition(m, s);
    forall j | 0 <= j < i ensures !HasValue(t)(Themes[j]) {
      if Themes[j].value == t {
        ThemeValueInjective(ModeAt(j / 7), SchemeAt(j % 7), m, s);
        IndexOfPosition(j);
      }
    }
    Lists.FindFirst(Themes, HasValue(t), i);
  }

  /** Positions of the table are determined by their mode and scheme. */
  lemma IndexOfPosition(j: nat)
    requires j < 14
    ensures j == 7 * ModeIndex(ModeAt(j / 7)) + SchemeIndex(SchemeAt(j % 7))
  {
  }

  // ---------------------------------------------------------------- provider state

  /** `theme`, `currentMode` and `currentColorScheme`. */
  datatype State = State(theme: string, mode: Mode, scheme: Scheme)

  /** The theme name agrees with the mode and colour scheme. */
  predicate Consistent(st: State) {
    st.theme == ThemeValue(st.mode, st.scheme)
  }

  const Initial := State("light-blue", Light, Blue)

  lemma InitialConsistent()
    ensures Consistent(Initial)
  {
  }

  /** `setTheme(name)`: the name is taken as it is; mode and scheme follow it
      only when it is in the table. The second component is the toast's
      description, which reads "undefined" for an unknown name. */
  function SetTheme(st: State, t: string): (r: (State, string))
    ensures r.0.theme == t
    ensures Lookup(t).None? ==> r.0 == st.(theme := t)
    ensures Lookup(t).Some? ==> Consistent(r.0)
    ensures ParseTheme(t).Some? ==> (r.0.mode, r.0.scheme) == ParseTheme(t).value
  {
    match Lookup(t)
    case None => (st.(theme := t), "Design wurde zu \"undefined\" geändert.")
    case Some(e) => (State(t, e.mode, e.scheme), "Design wurde zu \"" + e.caption + "\" geändert.")
  }

  function Flip(m: Mode): Mode {
    if m == Light then Dark else Light
  }

  /** `toggleMode()`: the other mode, the same colour scheme. */
  function ToggleMode(st: State): (r: State)
    ensures r.mode != st.mode && r.scheme == st.scheme && Consistent(r)
  {
    var m := Flip(st.mode);
    LookupValue(m, st.scheme);
    SetTheme(st.(mode := m), ThemeValue(m, st.scheme)).0
  }

  /** `setColorScheme(s)`: the same mode, the new colour scheme. */
  function SetColorScheme(st: State, s: Scheme): (r: State)
    ensures r.mode == st.mode && r.scheme == s && Consistent(r)
  {
    LookupValue(st.mode, s);
    SetTheme(st.(scheme := s), ThemeValue(st.mode, s)).0
  }

  /** Toggling twice restores any consistent state. */
  lemma ToggleTwice(st: State)
    requires Consistent(st)
    ensures ToggleMode(ToggleMode(st)) == st
  {
  }

  /** Choosing a colour scheme does not depend on the scheme chosen before. */
  lemma SetColorSchemeLast(st: State, s1: Scheme, s2: Scheme)
    ensures SetColorScheme(SetColorScheme(st, s1), s2) == SetColorScheme(st, s2)
  {
  }

  /** The start-up effect: a stored name is adopted when it is non-empty and
      in the table; anything else leaves the state alone. */
  function LoadSaved(st: State, saved: Option<string>): (r: State)
    ensures saved.None? || Lookup(saved.value).None? ==> r == st
    ensures saved.Some? && Lookup(saved.value).Some? ==> r.theme == saved.value && Consistent(r)
  {
    match saved
    case None => st
    case Some(t) =>
      if t != "" && Lookup(t).Some? then
        var e := Lookup(t).value;
        State(t, e.mode, e.scheme)
      else st
  }

  /** Every operation the provider offers keeps the theme name in step with
      the mode and colour scheme, as long as `setTheme` is given names from
      the table. */
  lemma ConsistentPreserved(st: State, t: string, s: Scheme, saved: Option<string>)
    requires Consistent(st)
    requires Lookup(t).Some?
    ensures Consistent(SetTheme(st, t).0)
    ensures Consistent(ToggleMode(st)) && Consistent(SetColorScheme(st, s))
    ensures Consistent(LoadSaved(st, saved))
  {
  }

  // ---------------------------------------------------------------- applying

  function ThemeClass(s: Scheme): string {
    "theme-" + SchemeName(s)
  }

  /** The classes the effect removes before adding the current ones. */
  predicate Managed(c: string) {
    c == "light" || c == "dark" || exists s :: c == ThemeClass(s)
  }

  /** The apply effect: drop every mode and theme class from the document
      element, add the current mode and `theme-<scheme>`, and store the theme
      name. */
  function Apply(classes: set<string>, st: State): (r: (set<string>, string))
    ensures r.1 == st.theme
    ensures forall c :: c in r.0 && !Managed(c) <==> c in classes && !Managed(c)
    ensures ModeName(st.mode) in r.0 && ThemeClass(st.scheme) in r.0
  {
    ((set c | c in classes && !Managed(c)) + {ModeName(st.mode), ThemeClass(st.scheme)}, st.theme)
  }

  lemma ThemeClassInjective(a: Scheme, b: Scheme)
    requires ThemeClass(a) == ThemeClass(b)
    ensures a == b
  {
    assert SchemeName(a) == ThemeClass(a)[6..];
    assert SchemeName(b) == ThemeClass(b)[6..];
    SchemeNameRoundTrip(a);
    SchemeNameRoundTrip(b);
  }

  /** After the effect the document carries exactly one mode class and exactly
      one theme class, the current ones. */
  lemma ApplyExactlyOne(classes: set<string>, st: State)
    ensures forall m :: ModeName(m) in Apply(classes, st).0 <==> m == st.mode
    ensures forall s :: ThemeClass(s) in Apply(classes, st).0 <==> s == st.scheme
  {
    var r := Apply(classes, st).0;
    forall m ensures ModeName(m) in r <==> m == st.mode {
      assert Managed(ModeName(m));
    }
    forall s ensures ThemeClass(s) in r <==> s == st.scheme {
      assert Managed(ThemeClass(s));
      if ThemeClass(s) == ThemeClass(st.scheme) {
        ThemeClassInjective(s, st.scheme);
      }
    }
  }
}
