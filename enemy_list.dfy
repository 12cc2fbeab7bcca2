/**
 * The value-level behaviour of a turret's proximity list: the `List<Enemy>`
 * that trigger-enter appends to, trigger-exit removes from, and whose head is
 * the turret's target. Generic in the enemy type so that the rules are stated
 * once and the `Turret` class instantiates them with its own enemies.
 */
module EnemyList {
  import opened Wrappers

  /** A 2D collider as the turret sees it: its tag and the enemy component it carries. */
  datatype Collider<T> = Collider(tag: string, component: T)

  /** The tag filter applied by both trigger handlers. */
  predicate IsEnemyTagged<T>(c: Collider<T>)
  {
    c.tag == "Enemy"
  }

  /** Position of the first occurrence of `x`, as `List<T>.IndexOf` finds it. */
  function IndexOf<T(==)>(s: seq<T>, x: T): (i: nat)
    requires x in s
    ensures i < |s| && s[i] == x
    ensures forall k :: 0 <= k < i ==> s[k] != x
  {
    if s[0] == x then 0 else 1 + IndexOf(s[1..], x)
  }

  /**
   * `List<T>.Remove`: deletes the first occurrence of `x` and leaves the list
   * alone when there is none.
   */
  function RemoveFirst<T(==)>(s: seq<T>, x: T): (r: seq<T>)
    ensures x !in s ==> r == s
  {
    if s == [] then []
    else if s[0] == x then s[1..]
    else [s[0]] + RemoveFirst(s[1..], x)
  }

  /** Removal takes away exactly one copy of `x` when there is one, and nothing else. */
  lemma {:induction false} RemoveFirstMultiset<T>(s: seq<T>, x: T)
    ensures multiset(RemoveFirst(s, x)) == multiset(s) - multiset{x}
  {
    if s != [] {
      assert s == [s[0]] + s[1..];
      if s[0] != x {
        RemoveFirstMultiset(s[1..], x);
      }
    }
  }

  /**
   * The list after a trigger-enter: an enemy-tagged collider is appended, with
   * no membership check. The old list stays in front, and an enemy-tagged
   * enter adds one more copy of its enemy whether or not it was listed.
   */
  function OnEnter<T>(s: seq<T>, c: Collider<T>): (r: seq<T>)
    ensures |r| >= |s| && r[..|s|] == s
    ensures multiset(r) == multiset(s) + if IsEnemyTagged(c) then multiset{c.component} else multiset{}
  {
    if IsEnemyTagged(c) then s + [c.component] else s
  }

  /**
   * The list after a trigger-exit: an enemy-tagged collider that is present
   * loses its first occurrence. It takes away at most one copy of its enemy
   * and never anything else.
   */
  function OnExit<T(==)>(s: seq<T>, c: Collider<T>): (r: seq<T>)
    ensures multiset(r) == if IsEnemyTagged(c) then multiset(s) - multiset{c.component} else multiset(s)
  {
    if IsEnemyTagged(c) && c.component in s then
      RemoveFirstMultiset(s, c.component);
      RemoveFirst(s, c.component)
    else s
  }

  /** The target rule: the head of the list, or nothing when the list is empty; a target is always listed. */
  function Target<T>(s: seq<T>): (r: Option<T>)
    ensures r.None? <==> |s| == 0
    ensures r.Some? ==> r.value in s
  {
    if |s| <= 0 then None else Some(s[0])
  }

  /** A range signal delivered by the collision system. */
  datatype Trigger<T> = Enter(collider: Collider<T>) | Exit(collider: Collider<T>)

  function Apply<T(==)>(s: seq<T>, t: Trigger<T>): seq<T>
  {
    match t
    case Enter(c) => OnEnter(s, c)
    case Exit(c) => OnExit(s, c)
  }

  /** The list after a whole sequence of range signals, in order. */
  function Replay<T(==)>(s: seq<T>, ts: seq<Trigger<T>>): seq<T>
    decreases |ts|
  {
    if ts == [] then s else Replay(Apply(s, ts[0]), ts[1..])
  }

  /**
   * An independent count of how many entries `x` has after the signals `ts`,
   * starting from `n`: an enter of `x` adds one, an exit of `x` cancels one
   * earlier unmatched enter if there is any, everything else leaves it.
   */
  function Unmatched<T(==)>(n: nat, ts: seq<Trigger<T>>, x: T): nat
    decreases |ts|
  {
    if ts == [] then n
    else
      var c := ts[0].collider;
      var n' :=
        if !IsEnemyTagged(c) || c.component != x then n
        else if ts[0].Enter? then n + 1
        else if n == 0 then 0
        else n - 1;
      Unmatched(n', ts[1..], x)
  }

  /** Enter appends exactly one copy of a tagged enemy at the end, even when it is already present. */
  lemma EnterAppends<T>(s: seq<T>, c: Collider<T>)
    requires IsEnemyTagged(c)
    ensures |OnEnter(s, c)| == |s| + 1
    ensures OnEnter(s, c)[..|s|] == s && OnEnter(s, c)[|s|] == c.component
  {
  }

  /** A collider that is not tagged "Enemy" changes nothing on enter or exit. */
  lemma UntaggedIgnored<T>(s: seq<T>, c: Collider<T>)
    requires !IsEnemyTagged(c)
    ensures OnEnter(s, c) == s && OnExit(s, c) == s
  {
  }

  /**
   * Removing a present element deletes exactly the first occurrence: the
   * result is the list with position `IndexOf(s, x)` cut out, so every other
   * element keeps its relative order.
   */
  lemma {:induction false} RemoveFirstCutsFirstOccurrence<T>(s: seq<T>, x: T)
    requires x in s
    ensures RemoveFirst(s, x) == s[..IndexOf(s, x)] + s[IndexOf(s, x) + 1..]
  {
    if s[0] == x {
      assert s[..0] == [];
    } else {
      var t := s[1..];
      assert x in t;
      var i := IndexOf(t, x);
      RemoveFirstCutsFirstOccurrence(t, x);
      ConsSplit(s, i);
    }
  }

  /** Slicing a list one position further in, after its head. */
  lemma ConsSplit<T>(s: seq<T>, i: nat)
    requires i + 1 < |s|
    ensures [s[0]] + (s[1..][..i] + s[1..][i + 1..]) == s[..i + 1] + s[i + 2..]
  {
    assert [s[0]] + s[1..][..i] == s[..i + 1];
    assert s[1..][i + 1..] == s[i + 2..];
  }

  /** An exit of an absent enemy leaves the list unchanged. */
  lemma ExitAbsentIgnored<T>(s: seq<T>, c: Collider<T>)
    requires c.component !in s
    ensures OnExit(s, c) == s
  {
  }

  /** An enemy entered twice and exited once is still in the list. */
  lemma {:induction false} TwoEntersOneExitStillPresent<T>(s: seq<T>, c: Collider<T>)
    requires IsEnemyTagged(c)
    ensures c.component in OnExit(OnEnter(OnEnter(s, c), c), c)
  {
    var x := c.component;
    var twice := OnEnter(OnEnter(s, c), c);
    assert twice == s + [x] + [x];
    assert multiset(twice)[x] >= 2;
    RemoveFirstMultiset(twice, x);
    assert multiset(RemoveFirst(twice, x))[x] >= 1;
  }

  /** The target is absent exactly when the list is empty, and otherwise is its first element. */
  lemma TargetIsHead<T>(s: seq<T>)
    ensures Target(s).None? <==> s == []
    ensures Target(s).Some? ==> Target(s).value == s[0] && Target(s).value in s
  {
  }

  /** A newcomer never displaces the current target: the earliest entry keeps it. */
  lemma TargetKeptOnEnter<T>(s: seq<T>, c: Collider<T>)
    requires s != []
    ensures Target(OnEnter(s, c)) == Target(s)
  {
  }

  /** An exit of anything but the head keeps the target; an exit of the head hands it to the next entry. */
  lemma {:induction false} TargetAfterExit<T>(s: seq<T>, c: Collider<T>)
    requires IsEnemyTagged(c) && s != []
    ensures c.component != s[0] ==> Target(OnExit(s, c)) == Target(s)
    ensures c.component == s[0] ==> Target(OnExit(s, c)) == Target(s[1..])
  {
    if c.component != s[0] && c.component in s {
      RemoveFirstCutsFirstOccurrence(s, c.component);
    }
  }

  /** One signal changes the number of copies of `x` exactly as `Unmatched` counts it. */
  lemma {:induction false} ApplyCount<T>(s: seq<T>, t: Trigger<T>, x: T)
    ensures multiset(Apply(s, t))[x] == Unmatched(multiset(s)[x], [t], x)
  {
    assert [t][1..] == [];
  }

  /**
   * For every sequence of range signals, the list holds each enemy exactly as
   * many times as it has enters not yet cancelled by an exit.
   */
  lemma {:induction false} ReplayCountsUnmatchedEnters<T>(s: seq<T>, ts: seq<Trigger<T>>, x: T)
    ensures multiset(Replay(s, ts))[x] == Unmatched(multiset(s)[x], ts, x)
    decreases |ts|
  {
    if ts != [] {
      ApplyCount(s, ts[0], x);
      assert Unmatched(multiset(s)[x], ts, x)
          == Unmatched(Unmatched(multiset(s)[x], [ts[0]], x), ts[1..], x);
      ReplayCountsUnmatchedEnters(Apply(s, ts[0]), ts[1..], x);
    }
  }

  /** Starting from an empty list, an enemy is present exactly when it has an unmatched enter. */
  lemma MembershipIsUnmatchedEnter<T>(ts: seq<Trigger<T>>, x: T)
    ensures x in Replay([], ts) <==> Unmatched(0, ts, x) > 0
  {
    ReplayCountsUnmatchedEnters([], ts, x);
  }
}
