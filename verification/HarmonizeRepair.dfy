/**
 `harmonize_in_partitions` step by step: the paging query, one transaction per page, and a
 boot that may stop between two pages.
 */
module HarmonizeRepair {
  import opened Options
  import opened Sequences
  import opened UserData
  import opened UserDataTable

  /** The groups the query selects. */
  predicate Candidate(t: seq<Record>, g: Group) {
    g.item != PLACEHOLDER && Conflicting(GroupRows(t, g))
  }

  /** `g` is the least group the query selects after `after`. */
  ghost predicate First(t: seq<Record>, after: Option<Group>, g: Group) {
    && Candidate(t, g) && !Reached(after, g)
    && forall h: Group :: Candidate(t, h) && !Reached(after, h) ==> !Before(h, g)
  }

  /** The first group the query returns after `after`; None when it returns none. */
  ghost function Next(t: seq<Record>, after: Option<Group>): Option<Group> {
    if g: Group :| First(t, after, g) then Some(g) else None
  }

  ghost predicate Exhausted(t: seq<Record>, after: Option<Group>) {
    forall h: Group :: Candidate(t, h) ==> Reached(after, h)
  }

  lemma NextIs(t: seq<Record>, after: Option<Group>, g: Group)
    requires First(t, after, g)
    ensures Next(t, after) == Some(g)
  {
  }

  /** Where a page stands after its first `k` groups. */
  function PageBound(after: Option<Group>, page: seq<Group>, k: nat): Option<Group>
    requires k <= |page|
  {
    if k == 0 then after else Some(page[k - 1])
  }

  /** Each group of the page is the next one after those before it. */
  ghost predicate Ordered(t: seq<Record>, after: Option<Group>, page: seq<Group>) {
    page != [] ==>
      && Ordered(t, after, page[..|page| - 1])
      && Next(t, PageBound(after, page, |page| - 1)) == Some(page[|page| - 1])
  }

  lemma {:induction false} OrderedAt(t: seq<Record>, after: Option<Group>, page: seq<Group>, k: nat)
    requires Ordered(t, after, page) && k < |page|
    ensures Next(t, PageBound(after, page, k)) == Some(page[k])
  {
    if k < |page| - 1 {
      OrderedAt(t, after, page[..|page| - 1], k);
    }
  }

  /** The page in key order, without a gap; shorter than the limit only at the end. */
  ghost predicate IsPage(t: seq<Record>, after: Option<Group>, limit: nat, page: seq<Group>) {
    && |page| <= limit && Ordered(t, after, page)
    && (|page| < limit ==> Exhausted(t, PageBound(after, page, |page|)))
  }

  /** Groups the repair has not reached are as they were, so the query finds the same ones. */
  lemma NextStable(t: seq<Record>, done: Option<Group>, after: Option<Group>)
    requires Keyed(t) && AllJudgeable(t)
    requires forall h: Group :: Reached(done, h) ==> Reached(after, h)
    ensures Next(RepairedUpTo(t, done), after) == Next(t, after)
    ensures Exhausted(RepairedUpTo(t, done), after) <==> Exhausted(t, after)
  {
    forall h: Group | h.item != PLACEHOLDER && !Reached(after, h)
      ensures GroupRows(RepairedUpTo(t, done), h) == GroupRows(t, h)
    {
      GroupAfter(t, done, h);
    }
    var u := RepairedUpTo(t, done);
    assert forall g: Group :: First(u, after, g) <==> First(t, after, g);
    if g: Group :| First(t, after, g) {
      NextIs(t, after, g);
      NextIs(u, after, g);
    }
  }

  /** The update of one group: the winner's columns onto every row with another key. */
  ghost function RepairGroup(t: seq<Record>, g: Group): seq<Record>
    requires Judgeable(GroupRows(t, g))
  {
    Map((r: Record) => if r.Of() == g then r.(row := Repaired(GroupRows(t, g), r.row)) else r, t)
  }

  /** Repairing the next group moves the bound to it: everything skipped had no conflict. */
  lemma RepairNext(t: seq<Record>, bound: Option<Group>, g: Group)
    requires Keyed(t) && AllJudgeable(t) && Next(t, bound) == Some(g)
    ensures Judgeable(GroupRows(RepairedUpTo(t, bound), g))
    ensures RepairGroup(RepairedUpTo(t, bound), g) == RepairedUpTo(t, Some(g))
  {
    var u := RepairedUpTo(t, bound);
    KeyedAfter(t, bound);
    GroupAfter(t, bound, g);
    forall i | 0 <= i < |t|
      ensures RepairGroup(u, g)[i] == RepairedUpTo(t, Some(g))[i]
    {
      var h := t[i].Of();
      if h != g && h.item != PLACEHOLDER && Reached(Some(g), h) && !Reached(bound, h) {
        assert !Candidate(t, h);
      }
    }
  }

  lemma RepairDone(t: seq<Record>, bound: Option<Group>)
    requires Keyed(t) && AllJudgeable(t) && Exhausted(t, bound)
    ensures RepairedUpTo(t, bound) == HarmonizeAll(t)
  {
    forall i | 0 <= i < |t|
      ensures RepairedUpTo(t, bound)[i] == HarmonizeAll(t)[i]
    {
      assert t[i].item != PLACEHOLDER && !Reached(bound, t[i].Of()) ==> !Candidate(t, t[i].Of());
    }
  }

  lemma CandidateListed(t: seq<Record>, g: Group)
    requires Candidate(t, g)
    ensures exists i :: 0 <= i < |t| && t[i].Of() == g
  {
    var row := GroupRows(t, g)[0];
    GroupRowsMembers(t, g, row);
    var i :| 0 <= i < |t| && t[i] == Record(g.item, g.user, row);
  }

  /** The database the repair runs on: the table, and the marker that the repair has run. */
  class Database {
    var userData: seq<Record>
    var harmonized: bool

    constructor (userData: seq<Record>)
      ensures this.userData == userData && !harmonized
    {
      this.userData, harmonized := userData, false;
    }

    /** The query with a limit of one. */
    method NextGroup(after: Option<Group>) returns (g: Option<Group>)
      ensures g.Some? ==> Next(userData, after) == g
      ensures g.None? ==> Exhausted(userData, after)
    {
      g := None;
      for i := 0 to |userData|
        invariant g.Some? ==> Candidate(userData, g.value) && !Reached(after, g.value)
        invariant forall k :: 0 <= k < i && Candidate(userData, userData[k].Of()) && !Reached(after, userData[k].Of()) ==>
                    g.Some? && !Before(userData[k].Of(), g.value)
      {
        var h := userData[i].Of();
        if Candidate(userData, h) && !Reached(after, h) && (g.None? || Before(h, g.value)) {
          g := Some(h);
        }
      }
      forall h: Group | Candidate(userData, h) && !Reached(after, h)
        ensures g.Some? && !Before(h, g.value)
      {
        CandidateListed(userData, h);
      }
      if g.Some? { NextIs(userData, after, g.value); }
    }

    /** The query: at most `limit` groups after `after`, in key order. */
    method ConflictingGroups(after: Option<Group>, limit: nat) returns (page: seq<Group>)
      ensures IsPage(userData, after, limit, page)
    {
      page := [];
      while |page| < limit
        invariant |page| <= limit && Ordered(userData, after, page)
      {
        var g := NextGroup(PageBound(after, page, |page|));
        if g.None? { return; }
        assert (page + [g.value])[..|page|] == page;
        page := page + [g.value];
      }
    }

    /** One transaction: every group of the page. */
    method HarmonizeGroups(page: seq<Group>, ghost t: seq<Record>, ghost bound: Option<Group>)
      requires Keyed(t) && AllJudgeable(t) && userData == RepairedUpTo(t, bound)
      requires Ordered(t, bound, page)
      modifies this`userData
      ensures userData == RepairedUpTo(t, PageBound(bound, page, |page|))
    {
      for k := 0 to |page|
        invariant userData == RepairedUpTo(t, PageBound(bound, page, k))
      {
        OrderedAt(t, bound, page, k);
        RepairNext(t, PageBound(bound, page, k), page[k]);
        var rows := GroupRows(userData, page[k]);
        userData := Map((r: Record) => if r.Of() == page[k] then r.(row := Repaired(rows, r.row)) else r, userData);
      }
    }

    /**
     The repair, stopped after `pages` transactions if it has not finished by then. A finished
     run leaves every group repaired; a stopped one leaves a prefix of the groups repaired and
     the marker unset.
     */
    method HarmonizeInPartitions(partition: nat, pages: nat) returns (finished: bool)
      requires partition > 0 && Keyed(userData) && AllJudgeable(userData)
      modifies this
      ensures old(harmonized) ==> finished && harmonized && userData == old(userData)
      ensures !old(harmonized) && finished ==> harmonized && userData == HarmonizeAll(old(userData))
      ensures !finished ==> !harmonized && exists bound :: userData == RepairedUpTo(old(userData), bound)
      ensures pages > |old(userData)| ==> finished
    {
      if harmonized { return true; }
      ghost var t := userData;
      var bound := None;
      var left := pages;
      assert RepairedUpTo(t, bound) == t;
      while left > 0
        invariant !harmonized && userData == RepairedUpTo(t, bound)
        invariant pages - left + Pending(t, bound) <= |t|
      {
        var page := ConflictingGroups(bound, partition);
        PageStable(t, bound, partition, page);
        HarmonizeGroups(page, t, bound);
        if |page| < partition {
          RepairDone(t, PageBound(bound, page, |page|));
          harmonized := true;
          return true;
        }
        PageProgress(t, bound, page);
        bound := Some(page[|page| - 1]);
        left := left - 1;
      }
      finished := false;
    }
  }

  /** How many rows are in groups a run has not reached. */
  ghost function Pending(t: seq<Record>, bound: Option<Group>): (n: nat)
    ensures n <= |t|
  {
    if t == [] then 0
    else Pending(t[..|t| - 1], bound) + (if Reached(bound, t[|t| - 1].Of()) then 0 else 1)
  }

  lemma {:induction false} PendingDrops(t: seq<Record>, b: Option<Group>, c: Option<Group>)
    requires forall h: Group :: Reached(b, h) ==> Reached(c, h)
    ensures Pending(t, c) <= Pending(t, b)
    ensures (exists i :: 0 <= i < |t| && !Reached(b, t[i].Of()) && Reached(c, t[i].Of())) ==> Pending(t, c) < Pending(t, b)
  {
    if t != [] {
      PendingDrops(t[..|t| - 1], b, c);
      forall i | 0 <= i < |t| - 1
        ensures t[i] == t[..|t| - 1][i]
      {
      }
    }
  }

  /** A page with a group in it reaches rows no earlier page did. */
  lemma PageProgress(t: seq<Record>, bound: Option<Group>, page: seq<Group>)
    requires |page| > 0 && Ordered(t, bound, page)
    ensures Pending(t, Some(page[|page| - 1])) < Pending(t, bound)
  {
    var last := page[|page| - 1];
    LastOfPage(t, bound, page);
    CandidateListed(t, last);
    PendingDrops(t, bound, Some(last));
  }

  lemma LastOfPage(t: seq<Record>, bound: Option<Group>, page: seq<Group>)
    requires |page| > 0 && Ordered(t, bound, page)
    ensures Candidate(t, page[|page| - 1]) && !Reached(bound, page[|page| - 1])
    ensures forall h: Group :: Reached(bound, h) ==> Reached(Some(page[|page| - 1]), h)
  {
    PageAscends(t, bound, page, |page| - 1);
    OrderedAt(t, bound, page, |page| - 1);
    assert First(t, PageBound(bound, page, |page| - 1), page[|page| - 1]);
  }

  lemma {:induction false} OrderedStable(t: seq<Record>, bound: Option<Group>, page: seq<Group>)
    requires Keyed(t) && AllJudgeable(t) && Ordered(RepairedUpTo(t, bound), bound, page)
    ensures Ordered(t, bound, page)
  {
    if page != [] {
      OrderedStable(t, bound, page[..|page| - 1]);
      PageAscends(RepairedUpTo(t, bound), bound, page, |page| - 1);
      NextStable(t, bound, PageBound(bound, page, |page| - 1));
    }
  }

  lemma PageStable(t: seq<Record>, bound: Option<Group>, limit: nat, page: seq<Group>)
    requires Keyed(t) && AllJudgeable(t) && IsPage(RepairedUpTo(t, bound), bound, limit, page)
    ensures IsPage(t, bound, limit, page)
  {
    OrderedStable(t, bound, page);
    PageAscends(RepairedUpTo(t, bound), bound, page, |page|);
    NextStable(t, bound, PageBound(bound, page, |page|));
  }

  lemma {:induction false} PageAscends(t: seq<Record>, after: Option<Group>, page: seq<Group>, k: nat)
    requires k <= |page|
    requires Ordered(t, after, page)
    ensures forall h: Group :: Reached(after, h) ==> Reached(PageBound(after, page, k), h)
    decreases k
  {
    if k > 0 {
      PageAscends(t, after, page, k - 1);
      OrderedAt(t, after, page, k - 1);
      assert First(t, PageBound(after, page, k - 1), page[k - 1]);
    }
  }
}
