/** The theme button (DarkModeToggler): each press moves the theme preference one
    step along light, dark, system and back to light; the button shows the icon of
    the current preference. */
module ThemeToggle {

  datatype Theme = Light | Dark | System

  datatype Icon = Sun | Moon | Laptop

  /** The order in which presses walk through the themes. */
  const Cycle: seq<Theme> := [Light, Dark, System]

  /** Where `t` stands in `Cycle`. */
  function Position(t: Theme): (i: nat)
    ensures i < |Cycle| && Cycle[i] == t
  {
    match t
    case Light => 0
    case Dark => 1
    case System => 2
  }

  /** The theme `toggleTheme` hands to the setter when the current theme is `t`. */
  function Toggle(t: Theme): (r: Theme)
    ensures r != t
    ensures r == Cycle[(Position(t) + 1) % |Cycle|]
  {
    if t == Light then Dark
    else if t == Dark then System
    else Light
  }

  /** The theme after `n` presses, starting from `t`. */
  function Press(t: Theme, n: nat): Theme
    decreases n
  {
    if n == 0 then t else Press(Toggle(t), n - 1)
  }

  lemma {:induction false} PressPosition(t: Theme, n: nat)
    ensures Position(Press(t, n)) == (Position(t) + n) % |Cycle|
    decreases n
  {
    if n > 0 {
      PressPosition(Toggle(t), n - 1);
    }
  }

  lemma PositionInjective(a: Theme, b: Theme)
    ensures Position(a) == Position(b) ==> a == b
  {
  }

  /** Three presses bring back the theme one started from, and the cycle has no shorter period:
      presses repeat with period exactly three. */
  lemma {:induction false} PressPeriod(t: Theme, n: nat)
    ensures Press(t, n) == Press(t, n % 3)
    ensures Press(t, 3) == t
    ensures n % 3 != 0 ==> Press(t, n) != t
  {
    PressPosition(t, n);
    PressPosition(t, n % 3);
    PressPosition(t, 3);
    PositionInjective(Press(t, n), Press(t, n % 3));
    PositionInjective(Press(t, 3), t);
    PositionInjective(Press(t, n), t);
  }

  /** Every theme is reached from every other within at most two presses. */
  lemma {:induction false} PressReachesEveryTheme(t: Theme, u: Theme)
    ensures Press(t, (Position(u) - Position(t) + 3) % 3) == u
  {
    var n := (Position(u) - Position(t) + 3) % 3;
    PressPosition(t, n);
    PositionInjective(Press(t, n), u);
  }

  /** The icons the button renders for theme `t`, one conditional element per icon. */
  function Icons(t: Theme): (r: set<Icon>)
    ensures |r| == 1
  {
    (if t == Light then {Sun} else {})
      + (if t == Dark then {Moon} else {})
      + (if t == System then {Laptop} else {})
  }

  /** The rendered icon identifies the theme: different themes show different icons. */
  lemma IconsIdentifyTheme(a: Theme, b: Theme)
    ensures Icons(a) == Icons(b) <==> a == b
  {
    assert Icons(Light) == {Sun};
    assert Icons(Dark) == {Moon};
    assert Icons(System) == {Laptop};
  }
}
