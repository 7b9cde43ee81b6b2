/** Paging back through a chat history by cursor (chat_history.py). */
module CursorPaging {
  import opened Text

  datatype Message = Message(session: nat, user: string, createdAt: int, content: string)

  /** The messages of one session and user, in whatever order the table has them. */
  function Mine(table: seq<Message>, session: nat, user: string): seq<Message> {
    if table == [] then []
    else
      var m := table[|table| - 1];
      Mine(table[..|table| - 1], session, user) + if m.session == session && m.user == user then [m] else []
  }

  predicate Ascending(h: seq<Message>) {
    forall i, j | 0 <= i < j < |h| :: h[i].createdAt <= h[j].createdAt
  }

  /** `m` behind every message that is no newer. */
  function Insert(h: seq<Message>, m: Message): (r: seq<Message>)
    ensures multiset(r) == multiset(h) + multiset{m}
  {
    if h == [] then [m]
    else if h[|h| - 1].createdAt <= m.createdAt then h + [m]
    else
      var r := Insert(h[..|h| - 1], m) + [h[|h| - 1]];
      assert h == h[..|h| - 1] + [h[|h| - 1]];
      r
  }

  /** Ordered by time; equal stamps keep their order. */
  function ByTime(h: seq<Message>): (r: seq<Message>)
    ensures multiset(r) == multiset(h)
  {
    if h == [] then []
    else
      assert h == h[..|h| - 1] + [h[|h| - 1]];
      Insert(ByTime(h[..|h| - 1]), h[|h| - 1])
  }

  lemma AscendingSnoc(h: seq<Message>, x: Message)
    requires Ascending(h) && forall y | y in h :: y.createdAt <= x.createdAt
    ensures Ascending(h + [x])
  {
    assert forall i | 0 <= i < |h| :: h[i] in h;
  }

  lemma LastIsNewest(h: seq<Message>)
    requires Ascending(h) && h != []
    ensures forall y | y in h :: y.createdAt <= h[|h| - 1].createdAt
    ensures Ascending(h[..|h| - 1])
  {
  }

  lemma {:induction false} InsertKeepsOrder(h: seq<Message>, m: Message)
    requires Ascending(h)
    ensures Ascending(Insert(h, m))
    ensures forall x | x in Insert(h, m) :: x == m || x in h
    decreases |h|
  {
    hide Ascending;
    if h == [] {
      OneAscends(m);
    } else {
      var init, last := h[..|h| - 1], h[|h| - 1];
      LastIsNewest(h);
      if last.createdAt <= m.createdAt {
        AscendingSnoc(h, m);
      } else {
        InsertKeepsOrder(init, m);
        assert forall x | x in init :: x in h;
        AscendingSnoc(Insert(init, m), last);
      }
    }
  }

  lemma OneAscends(m: Message)
    ensures Ascending([m])
  {
  }

  /** The chat history: the session's and user's messages, ordered by time. */
  function HistoryOf(table: seq<Message>, session: nat, user: string): seq<Message> {
    ByTime(Mine(table, session, user))
  }

  lemma {:induction false} ByTimeAscends(h: seq<Message>)
    ensures Ascending(ByTime(h))
  {
    if h != [] {
      ByTimeAscends(h[..|h| - 1]);
      InsertKeepsOrder(ByTime(h[..|h| - 1]), h[|h| - 1]);
    }
  }

  lemma {:induction false} MineIsMine(table: seq<Message>, session: nat, user: string)
    ensures multiset(Mine(table, session, user)) <= multiset(table)
    ensures forall m :: m in Mine(table, session, user) <==> m in table && m.session == session && m.user == user
  {
    if table != [] {
      MineIsMine(table[..|table| - 1], session, user);
      assert table == table[..|table| - 1] + [table[|table| - 1]];
    }
  }

  /** Whatever the order of the table, the history is in order and holds exactly the session's and user's messages. */
  lemma HistoryAscends(table: seq<Message>, session: nat, user: string)
    ensures Ascending(HistoryOf(table, session, user))
    ensures forall m :: m in HistoryOf(table, session, user) <==> m in table && m.session == session && m.user == user
    ensures multiset(HistoryOf(table, session, user)) == multiset(Mine(table, session, user))
  {
    hide ByTime, Mine;
    var mine := Mine(table, session, user);
    ByTimeAscends(mine);
    MineIsMine(table, session, user);
    forall m ensures m in ByTime(mine) <==> m in mine { assert multiset(ByTime(mine))[m] == multiset(mine)[m]; }
  }

  /** How many rows of an ascending history are strictly older than the cursor. */
  function Older(h: seq<Message>, cursor: Option<int>): (k: nat)
    requires Ascending(h)
    ensures k <= |h|
    ensures cursor.None? ==> k == |h|
    ensures cursor.Some? ==> forall i | 0 <= i < |h| :: h[i].createdAt < cursor.value <==> i < k
  {
    if h == [] then 0
    else if cursor.None? || h[|h| - 1].createdAt < cursor.value then |h|
    else Older(h[..|h| - 1], cursor)
  }

  /** Start of the page that ends before row k. */
  function PageStart(limit: nat, k: nat): nat {
    if k > limit then k - limit else 0
  }

  // ----- one page -----

  function Before(h: seq<Message>, cursor: Option<int>): seq<Message> {
    if h == [] then []
    else
      var m := h[|h| - 1];
      Before(h[..|h| - 1], cursor) + if cursor.None? || m.createdAt < cursor.value then [m] else []
  }

  function Reverse(s: seq<Message>): (r: seq<Message>)
    ensures |r| == |s|
  {
    if s == [] then [] else [s[|s| - 1]] + Reverse(s[..|s| - 1])
  }

  /** Newest first, cut at the limit, reversed. */
  function GetHistoryRecords(table: seq<Message>, session: nat, user: string, limit: nat, cursor: Option<int>)
    : seq<Message>
  {
    var newest := Reverse(Before(HistoryOf(table, session, user), cursor));
    Reverse(if |newest| > limit then newest[..limit] else newest)
  }

  lemma {:induction false} BeforeIsPrefix(h: seq<Message>, cursor: Option<int>)
    requires Ascending(h)
    ensures Before(h, cursor) == h[..Older(h, cursor)]
  {
    if h != [] {
      var init, m := h[..|h| - 1], h[|h| - 1];
      BeforeIsPrefix(init, cursor);
      if cursor.None? || m.createdAt < cursor.value {
        assert Older(init, cursor) == |init|;
        assert init[..|init|] + [m] == h;
      } else {
        assert init[..Older(init, cursor)] + [] == h[..Older(h, cursor)];
      }
    }
  }

  lemma {:induction false} ReverseAt(s: seq<Message>, i: nat)
    requires i < |s|
    ensures Reverse(s)[i] == s[|s| - 1 - i]
  {
    if i > 0 { ReverseAt(s[..|s| - 1], i - 1); }
  }

  /** The page is the stretch of the history that ends with the newest row older than the cursor. */
  lemma PageIsSlice(table: seq<Message>, session: nat, user: string, limit: nat, cursor: Option<int>)
    ensures Ascending(HistoryOf(table, session, user))
    ensures var h := HistoryOf(table, session, user);
            var k := Older(h, cursor);
            && GetHistoryRecords(table, session, user, limit, cursor) == h[PageStart(limit, k)..k]
            && k - PageStart(limit, k) == if k < limit then k else limit
  {
    hide HistoryOf, Before, Reverse, Older;
    HistoryAscends(table, session, user);
    var h := HistoryOf(table, session, user);
    var k := Older(h, cursor);
    BeforeIsPrefix(h, cursor);
    var newest := Reverse(h[..k]);
    var kept := if k > limit then newest[..limit] else newest;
    var page := Reverse(kept);
    forall i | 0 <= i < |page| ensures page[i] == h[PageStart(limit, k)..k][i] {
      ReverseAt(kept, i);
      ReverseAt(h[..k], |kept| - 1 - i);
    }
  }

  // ----- the walk back -----

  /** What repeatedly asking for the page before the oldest visible row collects, once k rows are still to come. */
  function Walked(h: seq<Message>, limit: nat, k: nat): seq<Message>
    requires Ascending(h) && limit >= 1 && k <= |h|
    decreases k
  {
    if k == 0 then []
    else
      var j := PageStart(limit, k);
      Walked(h, limit, Older(h, Some(h[j].createdAt))) + h[j..k]
  }

  /** No page boundary falls between two rows with one time stamp. */
  predicate CleanCuts(h: seq<Message>, limit: nat, k: nat)
    requires Ascending(h) && limit >= 1 && k <= |h|
    decreases k
  {
    if k == 0 then true
    else
      var j := PageStart(limit, k);
      (j > 0 ==> h[j - 1].createdAt < h[j].createdAt) && CleanCuts(h, limit, j)
  }

  lemma {:induction false} WalkedLength(h: seq<Message>, limit: nat, k: nat)
    requires Ascending(h) && limit >= 1 && k <= |h|
    ensures |Walked(h, limit, k)| <= k
    decreases k
  {
    if k > 0 {
      WalkedLength(h, limit, Older(h, Some(h[PageStart(limit, k)].createdAt)));
    }
  }

  /** Rows are never repeated or invented, ties or not. */
  lemma {:induction false} WalkedHasNoDuplicates(h: seq<Message>, limit: nat, k: nat)
    requires Ascending(h) && limit >= 1 && k <= |h|
    ensures multiset(Walked(h, limit, k)) <= multiset(h[..k])
    decreases k
  {
    if k > 0 {
      var j := PageStart(limit, k);
      var o := Older(h, Some(h[j].createdAt));
      WalkedHasNoDuplicates(h, limit, o);
      SliceMultiset(h, o, j, k);
    }
  }

  lemma SliceMultiset(h: seq<Message>, o: nat, j: nat, k: nat)
    requires o <= j <= k <= |h|
    ensures multiset(h[..o]) + multiset(h[j..k]) <= multiset(h[..k])
  {
    assert h[..k] == h[..o] + (h[o..j] + h[j..k]);
  }

  /** The walk rebuilds the history exactly when no page boundary splits a group of equal time stamps. */
  lemma {:induction false} WalkCompleteIff(h: seq<Message>, limit: nat, k: nat)
    requires Ascending(h) && limit >= 1 && k <= |h|
    ensures Walked(h, limit, k) == h[..k] <==> CleanCuts(h, limit, k)
    ensures |Walked(h, limit, k)| == k <==> CleanCuts(h, limit, k)
    decreases k
  {
    hide Older;
    if k > 0 {
      var j := PageStart(limit, k);
      var o := Older(h, Some(h[j].createdAt));
      WalkedLength(h, limit, o);
      assert |Walked(h, limit, k)| == |Walked(h, limit, o)| + (k - j);
      if o == j {
        WalkCompleteIff(h, limit, j);
        assert h[..k] == h[..j] + h[j..k];
      } else {
        assert h[j - 1].createdAt == h[j].createdAt;
      }
    }
  }

  /** With pairwise distinct time stamps it always does. */
  lemma {:induction false} DistinctStampsCutClean(h: seq<Message>, limit: nat, k: nat)
    requires Ascending(h) && limit >= 1 && k <= |h|
    requires forall i, j | 0 <= i < j < |h| :: h[i].createdAt != h[j].createdAt
    ensures CleanCuts(h, limit, k) && Walked(h, limit, k) == h[..k]
    decreases k
  {
    WalkCompleteIff(h, limit, k);
    if k > 0 {
      DistinctStampsCutClean(h, limit, PageStart(limit, k));
    }
  }

  /** What the walk collects is in order, and a row is missed only if a later one has the same time stamp. */
  lemma {:induction false} WalkedKeeps(h: seq<Message>, limit: nat, k: nat, i: nat)
    requires Ascending(h) && limit >= 1 && i < k <= |h|
    requires i + 1 < |h| ==> h[i].createdAt < h[i + 1].createdAt
    ensures h[i] in Walked(h, limit, k)
    decreases k
  {
    hide Ascending, Older;
    var j := PageStart(limit, k);
    WalkedUnfolds(h, limit, k);
    if i >= j {
      assert h[j..k][i - j] == h[i];
    } else {
      StrictlyOlder(h, i, j);
      WalkedKeeps(h, limit, Older(h, Some(h[j].createdAt)), i);
    }
  }

  lemma StrictlyOlder(h: seq<Message>, i: nat, j: nat)
    requires Ascending(h) && i < j < |h| && h[i].createdAt < h[i + 1].createdAt
    ensures i < Older(h, Some(h[j].createdAt))
  {
    hide Older;
    assert h[i + 1].createdAt <= h[j].createdAt;
  }

  lemma {:induction false} WalkedAscends(h: seq<Message>, limit: nat, k: nat)
    requires Ascending(h) && limit >= 1 && k <= |h|
    ensures Ascending(Walked(h, limit, k))
    ensures k < |h| ==> forall m | m in Walked(h, limit, k) :: m.createdAt <= h[k].createdAt
    decreases k
  {
    hide Older;
    if k > 0 {
      var j := PageStart(limit, k);
      var o := Older(h, Some(h[j].createdAt));
      WalkedUnfolds(h, limit, k);
      WalkedAscends(h, limit, o);
      PageFollows(h, Walked(h, limit, o), o, j, k);
    } else {
      WalkedUnfolds(h, limit, k);
    }
  }

  lemma PageFollows(h: seq<Message>, front: seq<Message>, o: nat, j: nat, k: nat)
    requires Ascending(h) && Ascending(front) && o <= j < k <= |h|
    requires forall m | m in front :: m.createdAt <= h[o].createdAt
    ensures Ascending(front + h[j..k])
    ensures k < |h| ==> forall m | m in front + h[j..k] :: m.createdAt <= h[k].createdAt
  {
    var all := front + h[j..k];
    forall x, y | 0 <= x < y < |all| ensures all[x].createdAt <= all[y].createdAt {
      if x < |front| { assert all[x] in front && h[o].createdAt <= h[j].createdAt; }
    }
  }

  /** Every row that no later one shares its time stamp with. */
  predicate HoldsLast(h: seq<Message>, seen: seq<Message>) {
    forall i | 0 <= i < |h| && (i + 1 < |h| ==> h[i].createdAt < h[i + 1].createdAt) :: h[i] in seen
  }

  /** The client's loop: prepend the page before the oldest visible row until none comes. */
  method WalkBack(table: seq<Message>, session: nat, user: string, limit: nat) returns (seen: seq<Message>)
    requires limit >= 1
    ensures Ascending(HistoryOf(table, session, user))
    ensures seen == HistoryOf(table, session, user)
       <==> CleanCuts(HistoryOf(table, session, user), limit, |HistoryOf(table, session, user)|)
    ensures multiset(seen) <= multiset(HistoryOf(table, session, user)) && Ascending(seen)
    ensures HoldsLast(HistoryOf(table, session, user), seen)
  {
    hide HoldsLast, Ascending, Walked, CleanCuts, HistoryOf, GetHistoryRecords, Older;
    HistoryAscends(table, session, user);
    ghost var h := HistoryOf(table, session, user);
    ghost var k: nat := |h|;
    seen := [];
    var cursor: Option<int> := None;
    var page := GetHistoryRecords(table, session, user, limit, cursor);
    PageIsSlice(table, session, user, limit, cursor);
    WalkedUnfolds(h, limit, k);
    assert Walked(h, limit, k) + [] == Walked(h, limit, |h|);
    while page != []
      invariant k <= |h| && page == h[PageStart(limit, k)..k]
      invariant Walked(h, limit, k) + seen == Walked(h, limit, |h|)
      decreases k
    {
      ghost var j := PageStart(limit, k);
      WalkedUnfolds(h, limit, k);
      cursor := Some(page[0].createdAt);
      ghost var rest := Walked(h, limit, Older(h, cursor));
      Assoc(rest, page, seen);
      k := Older(h, cursor);
      seen := page + seen;
      page := GetHistoryRecords(table, session, user, limit, cursor);
      PageIsSlice(table, session, user, limit, cursor);
    }
    WalkedUnfolds(h, limit, k);
    assert [] + seen == seen;
    WholeWalk(h, limit);
  }

  lemma WholeWalk(h: seq<Message>, limit: nat)
    requires Ascending(h) && limit >= 1
    ensures var seen := Walked(h, limit, |h|);
            && (seen == h <==> CleanCuts(h, limit, |h|))
            && multiset(seen) <= multiset(h) && Ascending(seen)
            && HoldsLast(h, seen)
  {
    hide Walked, CleanCuts, Ascending;
    assert h[..|h|] == h;
    WalkCompleteIff(h, limit, |h|);
    WalkedHasNoDuplicates(h, limit, |h|);
    WalkedAscends(h, limit, |h|);
    forall i | 0 <= i < |h| && (i + 1 < |h| ==> h[i].createdAt < h[i + 1].createdAt) ensures h[i] in Walked(h, limit, |h|) {
      WalkedKeeps(h, limit, |h|, i);
    }
  }

  lemma WalkedUnfolds(h: seq<Message>, limit: nat, k: nat)
    requires Ascending(h) && limit >= 1 && k <= |h|
    ensures k == 0 ==> Walked(h, limit, k) == []
    ensures k > 0 ==> var j := PageStart(limit, k);
              j < k && Older(h, Some(h[j].createdAt)) <= j
              && Walked(h, limit, k) == Walked(h, limit, Older(h, Some(h[j].createdAt))) + h[j..k]
  {
    hide Older;
  }
}
