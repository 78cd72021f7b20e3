/** The password strength meter: three bars, one per level, lit up to the current level. */
module PasswordStrengthMeter {
  import opened Types

  /** The meter's `strength` prop: '' | 'weak' | 'medium' | 'strong'. */
  datatype Strength = Blank | Weak | Medium | Strong

  /** One bar of the meter: the level it stands for and whether it is lit (drawn in that
      level's colour rather than grey). */
  datatype Bar = Bar(level: Strength, lit: bool)

  /** What is drawn: the bars and the strength caption beside them. */
  datatype Meter = Meter(bars: seq<Bar>, caption: Strength)

  /** `strengthLevels`, in display order. */
  const Levels: seq<Strength> := [Weak, Medium, Strong]

  /** `strengthLevels.findIndex(level => level.id === strength)`: -1 when absent. */
  function FindIndex(levels: seq<Strength>, s: Strength): (k: int)
    ensures -1 <= k < |levels|
    ensures k >= 0 ==> levels[k] == s && forall j :: 0 <= j < k ==> levels[j] != s
    ensures k == -1 <==> s !in levels
  {
    if levels == [] then -1
    else if levels[0] == s then 0
    else
      var k := FindIndex(levels[1..], s);
      if k == -1 then -1 else k + 1
  }

  /** The order of the levels: weak below medium below strong. */
  function Rank(s: Strength): int
  {
    match s
    case Blank => -1
    case Weak => 0
    case Medium => 1
    case Strong => 2
  }

  /** The component: nothing for an empty strength, else one bar per level, lit when its
      index is at most the current level's index. */
  function Render(strength: Strength): (m: Option<Meter>)
    ensures m.None? <==> strength == Blank
    ensures m.Some? ==> |m.value.bars| == 3 && m.value.caption == strength
    ensures m.Some? ==> forall i :: 0 <= i < 3 ==> m.value.bars[i].level == Levels[i]
    ensures m.Some? ==> forall i :: 0 <= i < 3 ==> (m.value.bars[i].lit <==> Rank(Levels[i]) <= Rank(strength))
  {
    if strength == Blank then None
    else
      var current := FindIndex(Levels, strength);
      assert current == Rank(strength);
      Some(Meter(seq(|Levels|, i requires 0 <= i < |Levels| => Bar(Levels[i], i <= current)), strength))
  }

  /** The number of lit bars. */
  function LitCount(bars: seq<Bar>): nat
  {
    if bars == [] then 0 else (if bars[0].lit then 1 else 0) + LitCount(bars[1..])
  }

  /** weak, medium and strong light one, two and three bars. */
  lemma LitBarsPerLevel(strength: Strength)
    requires strength != Blank
    ensures Render(strength).Some?
    ensures LitCount(Render(strength).value.bars) == if strength == Weak then 1 else if strength == Medium then 2 else 3
  {
    var bars := Render(strength).value.bars;
    assert bars[0].lit && (bars[1].lit <==> strength != Weak) && (bars[2].lit <==> strength == Strong);
    assert LitCount(bars[2..]) == (if bars[2].lit then 1 else 0) by {
      assert bars[2..][1..] == [];
    }
    assert bars[1..][1..] == bars[2..];
  }

}
