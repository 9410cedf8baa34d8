/** The match phases, the six mask kinds and the fixed dominance cycle between them
    (GameManager.GameState, GameManager.MaskType, InitMaskRules and IsCounter). */
module GameTypes {

  /** The four phases of a match. */
  datatype GameState = StartScreen | Countdown | Playing | Ended

  /** The six mask kinds, in declaration order. */
  datatype MaskType = Red | Orange | Yellow | Green | Blue | Purple

  /** Position of a kind in the declaration order (the enum's integer value). */
  function Ordinal(m: MaskType): (n: nat)
    ensures n < 6
  {
    match m
    case Red => 0
    case Orange => 1
    case Yellow => 2
    case Green => 3
    case Blue => 4
    case Purple => 5
  }

  function FromOrdinal(n: nat): (m: MaskType)
    requires n < 6
    ensures Ordinal(m) == n
  {
    if n == 0 then Red
    else if n == 1 then Orange
    else if n == 2 then Yellow
    else if n == 3 then Green
    else if n == 4 then Blue
    else Purple
  }

  /** Reference definition of dominance: the kind one place further on in declaration
      order, Purple wrapping round to Red. */
  function Successor(m: MaskType): (s: MaskType)
    ensures Ordinal(s) == (Ordinal(m) + 1) % 6
  {
    FromOrdinal((Ordinal(m) + 1) % 6)
  }

  /** The table InitMaskRules fills: A -> B means a wearer of A defeats a wearer of B. */
  const MaskRules: map<MaskType, MaskType> :=
    map[Red := Orange, Orange := Yellow, Yellow := Green,
        Green := Blue, Blue := Purple, Purple := Red]

  /** IsCounter over a given table: the attacker's kind is a key and maps to the defender's kind. */
  predicate CounterIn(table: map<MaskType, MaskType>, attacker: MaskType, defender: MaskType)
  {
    attacker in table && table[attacker] == defender
  }

  /** Following the table n times from m; a kind missing from the table stays put. */
  function Follow(table: map<MaskType, MaskType>, m: MaskType, n: nat): MaskType
  {
    if n == 0 then m
    else
      var p := Follow(table, m, n - 1);
      if p in table then table[p] else p
  }

  /** The table is total and agrees with Successor on all 36 pairs, in both directions. */
  lemma MaskRulesAreSuccessor(attacker: MaskType, defender: MaskType)
    ensures attacker in MaskRules
    ensures CounterIn(MaskRules, attacker, defender) <==> defender == Successor(attacker)
  {
  }

  /** Every kind defeats exactly one kind, and that kind is never itself. */
  lemma ExactlyOneCountered(attacker: MaskType)
    ensures CounterIn(MaskRules, attacker, Successor(attacker))
    ensures forall d :: CounterIn(MaskRules, attacker, d) ==> d == Successor(attacker)
    ensures !CounterIn(MaskRules, attacker, attacker)
  {
  }

  /** No two kinds defeat the same kind: every kind is defeated by exactly one kind. */
  lemma CounteredByExactlyOne(a1: MaskType, a2: MaskType, defender: MaskType)
    requires CounterIn(MaskRules, a1, defender) && CounterIn(MaskRules, a2, defender)
    ensures a1 == a2
  {
  }

  /** n steps through the table advance the ordinal by n, modulo 6. */
  lemma {:induction false} FollowOrdinal(m: MaskType, n: nat)
    ensures Ordinal(Follow(MaskRules, m, n)) == (Ordinal(m) + n) % 6
  {
    if n > 0 {
      FollowOrdinal(m, n - 1);
      var p := Follow(MaskRules, m, n - 1);
      MaskRulesAreSuccessor(p, MaskRules[p]);
    }
  }

  /** The table is a single 6-cycle: six steps return to the start and no fewer do. */
  lemma CycleClosure(m: MaskType)
    ensures Follow(MaskRules, m, 6) == m
    ensures forall n :: 0 < n < 6 ==> Follow(MaskRules, m, n) != m
  {
  }
}
