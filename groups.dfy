/**
 * Grouping as the analytics build it: a dictionary filled in one pass, so
 * the groups come in the order their first member appears and each group
 * lists its members in input order. Items with no group (`None`) are
 * skipped.
 */
module Groups {
  import opened Wrappers

  /** The index of the group named `g`, or `|gs|` when there is none. */
  function GroupIndex<T>(gs: seq<(string, T)>, g: string): (k: nat)
    ensures k <= |gs|
    ensures k < |gs| ==> gs[k].0 == g
    ensures forall j | 0 <= j < k :: gs[j].0 != g
  {
    if gs == [] then 0 else if gs[0].0 == g then 0 else 1 + GroupIndex(gs[1..], g)
  }

  /** Adds `x` to the group `g`, opening the group at the end when it is new. */
  function Bucket<T>(gs: seq<(string, seq<T>)>, g: string, x: T): seq<(string, seq<T>)> {
    var k := GroupIndex(gs, g);
    if k == |gs| then gs + [(g, [x])] else gs[k := (g, gs[k].1 + [x])]
  }

  /** The groups after the items, in order. */
  function GroupBy<T>(items: seq<(Option<string>, T)>): seq<(string, seq<T>)> {
    if items == [] then []
    else
      var gs := GroupBy(items[..|items| - 1]);
      var last := items[|items| - 1];
      if last.0.None? then gs else Bucket(gs, last.0.value, last.1)
  }

  lemma GroupBySnoc<T>(items: seq<(Option<string>, T)>, it: (Option<string>, T))
    ensures GroupBy(items + [it]) == if it.0.None? then GroupBy(items) else Bucket(GroupBy(items), it.0.value, it.1)
  {
    assert (items + [it])[..|items|] == items;
  }

  /** The members of group `g`, in input order. */
  function Members<T>(items: seq<(Option<string>, T)>, g: string): seq<T> {
    if items == [] then []
    else Members(items[..|items| - 1], g) + (if items[|items| - 1].0 == Some(g) then [items[|items| - 1].1] else [])
  }

  lemma MembersSnoc<T>(items: seq<(Option<string>, T)>, it: (Option<string>, T), g: string)
    ensures Members(items + [it], g) == Members(items, g) + (if it.0 == Some(g) then [it.1] else [])
  {
    assert (items + [it])[..|items|] == items;
  }

  /** A group has members exactly when some item names it. */
  lemma {:induction false} MembersEmptyIff<T>(items: seq<(Option<string>, T)>, g: string)
    ensures Members(items, g) == [] <==> forall j | 0 <= j < |items| :: items[j].0 != Some(g)
  {
    if items != [] {
      var n := |items| - 1;
      MembersEmptyIff(items[..n], g);
      assert forall j | 0 <= j < n :: items[..n][j] == items[j];
    }
  }

  /** The number of items that have a group. */
  function CountGrouped<T>(items: seq<(Option<string>, T)>): nat {
    if items == [] then 0 else CountGrouped(items[..|items| - 1]) + (if items[|items| - 1].0.Some? then 1 else 0)
  }

  lemma CountGroupedSnoc<T>(items: seq<(Option<string>, T)>, it: (Option<string>, T))
    ensures CountGrouped(items + [it]) == CountGrouped(items) + if it.0.Some? then 1 else 0
  {
    assert (items + [it])[..|items|] == items;
  }

  /** Every item has a group, so all of them are counted. */
  lemma {:induction false} AllGrouped<T>(items: seq<(Option<string>, T)>)
    requires forall j | 0 <= j < |items| :: items[j].0.Some?
    ensures CountGrouped(items) == |items|
  {
    if items != [] {
      var n := |items| - 1;
      assert forall j | 0 <= j < n :: items[..n][j] == items[j];
      AllGrouped(items[..n]);
    }
  }

  /** The total number of members over all groups. */
  function MemberCount<T>(gs: seq<(string, seq<T>)>): nat {
    if gs == [] then 0 else MemberCount(gs[..|gs| - 1]) + |gs[|gs| - 1].1|
  }

  lemma {:induction false} MemberCountAppend<T>(gs: seq<(string, seq<T>)>, g: string, xs: seq<T>)
    ensures MemberCount(gs + [(g, xs)]) == MemberCount(gs) + |xs|
  {
    assert (gs + [(g, xs)])[..|gs|] == gs;
  }

  lemma {:induction false} MemberCountUpdate<T>(gs: seq<(string, seq<T>)>, k: nat, g: string, x: T)
    requires k < |gs|
    ensures MemberCount(gs[k := (g, gs[k].1 + [x])]) == MemberCount(gs) + 1
    decreases |gs|
  {
    var n := |gs| - 1;
    var gs' := gs[k := (g, gs[k].1 + [x])];
    assert gs'[..n] == if k < n then gs[..n][k := (g, gs[k].1 + [x])] else gs[..n];
    if k < n {
      MemberCountUpdate(gs[..n], k, g, x);
    }
  }

  /** No two groups share a name. */
  ghost predicate DistinctNames<T>(gs: seq<(string, T)>) {
    forall i, j | 0 <= i < j < |gs| :: gs[i].0 != gs[j].0
  }

  /**
   * `gs` is the grouping of `items`: distinct names, each group holding
   * exactly the members of its name, a group for every name some item
   * has, and every grouped item counted once.
   */
  ghost predicate GroupsOf<T>(items: seq<(Option<string>, T)>, gs: seq<(string, seq<T>)>) {
    DistinctNames(gs) &&
    (forall k | 0 <= k < |gs| :: gs[k].1 == Members(items, gs[k].0)) &&
    (forall g :: GroupIndex(gs, g) < |gs| <==> Members(items, g) != []) &&
    MemberCount(gs) == CountGrouped(items)
  }

  lemma SkipStep<T>(items: seq<(Option<string>, T)>, gs: seq<(string, seq<T>)>, x: T)
    requires GroupsOf(items, gs)
    ensures GroupsOf(items + [(None, x)], gs)
  {
    CountGroupedSnoc(items, (None, x));
    forall g ensures Members(items + [(None, x)], g) == Members(items, g) {
      MembersSnoc(items, (None, x), g);
    }
  }

  lemma NewGroupStep<T>(items: seq<(Option<string>, T)>, gs: seq<(string, seq<T>)>, g: string, x: T)
    requires GroupsOf(items, gs) && GroupIndex(gs, g) == |gs|
    ensures GroupsOf(items + [(Some(g), x)], gs + [(g, [x])])
  {
    var items', gs' := items + [(Some(g), x)], gs + [(g, [x])];
    CountGroupedSnoc(items, (Some(g), x));
    MemberCountAppend(gs, g, [x]);
    forall i, j | 0 <= i < j < |gs'| ensures gs'[i].0 != gs'[j].0 {
      if j == |gs| {
        assert gs'[i] == gs[i];
      } else {
        assert gs'[i] == gs[i] && gs'[j] == gs[j];
      }
    }
    forall k | 0 <= k < |gs'| ensures gs'[k].1 == Members(items', gs'[k].0) {
      MembersSnoc(items, (Some(g), x), gs'[k].0);
      if k < |gs| {
        assert gs'[k] == gs[k];
      }
    }
    forall h ensures GroupIndex(gs', h) < |gs'| <==> Members(items', h) != [] {
      MembersSnoc(items, (Some(g), x), h);
      GroupIndexAppend(gs, g, [x], h);
    }
  }

  lemma OldGroupStep<T>(items: seq<(Option<string>, T)>, gs: seq<(string, seq<T>)>, g: string, x: T)
    requires GroupsOf(items, gs) && GroupIndex(gs, g) < |gs|
    ensures GroupsOf(items + [(Some(g), x)], Bucket(gs, g, x))
  {
    var k := GroupIndex(gs, g);
    var items', gs' := items + [(Some(g), x)], gs[k := (g, gs[k].1 + [x])];
    assert Bucket(gs, g, x) == gs';
    CountGroupedSnoc(items, (Some(g), x));
    MemberCountUpdate(gs, k, g, x);
    RenameKeepsNames(gs, k, gs[k].1 + [x]);
    forall m | 0 <= m < |gs'| ensures gs'[m].1 == Members(items', gs'[m].0) {
      MembersSnoc(items, (Some(g), x), gs'[m].0);
      if m != k {
        assert gs'[m] == gs[m] && gs[m].0 != g;
      }
    }
    forall h ensures GroupIndex(gs', h) < |gs'| <==> Members(items', h) != [] {
      MembersSnoc(items, (Some(g), x), h);
      GroupIndexRename(gs, k, gs[k].1 + [x], h);
    }
  }

  lemma RenameKeepsNames<T>(gs: seq<(string, T)>, k: nat, v: T)
    requires k < |gs| && DistinctNames(gs)
    ensures DistinctNames(gs[k := (gs[k].0, v)])
  {
    var gs' := gs[k := (gs[k].0, v)];
    assert forall i | 0 <= i < |gs| :: gs'[i].0 == gs[i].0;
  }

  lemma {:induction false} GroupIndexAppend<T>(gs: seq<(string, T)>, g: string, v: T, h: string)
    ensures GroupIndex(gs + [(g, v)], h) ==
      if GroupIndex(gs, h) < |gs| then GroupIndex(gs, h) else if h == g then |gs| else |gs| + 1
    decreases |gs|
  {
    if gs != [] {
      assert (gs + [(g, v)])[1..] == gs[1..] + [(g, v)];
      GroupIndexAppend(gs[1..], g, v, h);
    }
  }

  lemma {:induction false} GroupIndexRename<T>(gs: seq<(string, T)>, k: nat, v: T, h: string)
    requires k < |gs|
    ensures GroupIndex(gs[k := (gs[k].0, v)], h) == GroupIndex(gs, h)
    decreases |gs|
  {
    if k > 0 {
      assert gs[k := (gs[k].0, v)][1..] == gs[1..][k - 1 := (gs[k].0, v)];
      GroupIndexRename(gs[1..], k - 1, v, h);
    }
  }

  /** `GroupBy` meets its description. */
  lemma {:induction false} GroupByIsGrouping<T>(items: seq<(Option<string>, T)>)
    ensures GroupsOf(items, GroupBy(items))
  {
    if items == [] {
      forall g ensures Members(items, g) == [] {
      }
    } else {
      var n := |items| - 1;
      var init, last := items[..n], items[n];
      assert items == init + [last];
      GroupByIsGrouping(init);
      GroupBySnoc(init, last);
      if last.0.None? {
        SkipStep(init, GroupBy(init), last.1);
      } else if GroupIndex(GroupBy(init), last.0.value) == |GroupBy(init)| {
        NewGroupStep(init, GroupBy(init), last.0.value, last.1);
      } else {
        OldGroupStep(init, GroupBy(init), last.0.value, last.1);
      }
    }
  }

  /** Every group is non-empty. */
  lemma GroupsNonEmpty<T>(items: seq<(Option<string>, T)>, gs: seq<(string, seq<T>)>, k: nat)
    requires GroupsOf(items, gs) && k < |gs|
    ensures gs[k].1 != []
  {
    var g := gs[k].0;
    assert GroupIndex(gs, g) <= k;
  }
  /** Two group lists with the same names in the same order find every name at the same index. */
  lemma SameNamesSameIndex<A, B>(gs: seq<(string, A)>, hs: seq<(string, B)>, g: string)
    requires |gs| == |hs| && forall i | 0 <= i < |gs| :: gs[i].0 == hs[i].0
    ensures GroupIndex(gs, g) == GroupIndex(hs, g)
  {
    var a, b := GroupIndex(gs, g), GroupIndex(hs, g);
    assert a < |gs| ==> hs[a].0 == g;
    assert b < |hs| ==> gs[b].0 == g;
  }

  /** Each member of group `g` is the value of some item named `g`. */
  lemma {:induction false} MemberSource<T>(items: seq<(Option<string>, T)>, g: string, i: nat) returns (j: nat)
    requires i < |Members(items, g)|
    ensures j < |items| && items[j] == (Some(g), Members(items, g)[i])
  {
    var n := |items| - 1;
    var init := Members(items[..n], g);
    if i < |init| {
      j := MemberSource(items[..n], g, i);
    } else {
      j := n;
    }
  }

  /** Each item named `g` is a member of group `g`. */
  lemma {:induction false} MemberAt<T>(items: seq<(Option<string>, T)>, g: string, j: nat) returns (i: nat)
    requires j < |items| && items[j].0 == Some(g)
    ensures i < |Members(items, g)| && Members(items, g)[i] == items[j].1
  {
    var n := |items| - 1;
    if j < n {
      assert items[..n][j] == items[j];
      i := MemberAt(items[..n], g, j);
    } else {
      i := |Members(items[..n], g)|;
    }
  }
}
