/** The administrators' asset listing: filters, cursors bound to them, and walking page by page while
    the registry keeps changing. */
module Pagination {
  import opened Model
  import opened Paths
  import opened Order

  datatype Filters = Filters(
    space: Option<Space>,
    partition: Option<string>,
    state: Option<AssetState>,
    createdFrom: Option<int>,
    createdTo: Option<int>,
    prefix: Option<string>)

  /** A cursor token decoded: the fingerprint of the filters it was made for and the last key shown. */
  datatype Token = Malformed | Token(fingerprint: string, key: SortKey)

  /** The digest that stands for a set of filters. */
  type Fingerprint = Filters -> string

  datatype Query = Query(filters: Filters, limit: nat, cursor: Option<Token>)

  datatype Start = FromTop | AfterKey(key: SortKey) | BadCursor

  datatype Page = Page(items: seq<SortKey>, next: Option<Token>)

  datatype Listing = Refused(error: Error) | Shown(page: Page)

  type Assets = map<Id, Asset>

  predicate Matches(f: Filters, a: Asset) {
    && (f.space.Some? ==> a.space == f.space.value)
    && (f.partition.Some? ==> a.partition == f.partition.value)
    && (f.state.Some? ==> a.state == f.state.value)
    && (f.createdFrom.Some? ==> a.createdAt >= f.createdFrom.value)
    && (f.createdTo.Some? ==> a.createdAt <= f.createdTo.value)
    && (f.prefix.Some? ==> exists k <- a.aliases :: CoversText(f.prefix.value, SpaceName(k.0) + "/" + k.1))
  }

  /** What an administrator sees: the bucket, partition and state asked for, created between the two bounds, and an
      alias whose segments begin with the prefix's. */
  predicate Fits(f: Filters, a: Asset) {
    && (f.space == None || f.space == Some(a.space))
    && (f.partition == None || f.partition == Some(a.partition))
    && (f.state == None || f.state == Some(a.state))
    && (f.createdFrom.Some? ==> f.createdFrom.value <= a.createdAt)
    && (f.createdTo.Some? ==> a.createdAt <= f.createdTo.value)
    && (f.prefix.Some? ==> exists k <- a.aliases :: Split(f.prefix.value) <= [SpaceName(k.0)] + Split(k.1))
  }

  lemma MatchesInFigures(f: Filters, a: Asset)
    ensures Matches(f, a) <==> Fits(f, a)
  {
    hide CoversText, Split;
    if f.prefix.Some? {
      forall k | k in a.aliases
        ensures CoversText(f.prefix.value, SpaceName(k.0) + "/" + k.1)
           <==> Split(f.prefix.value) <= [SpaceName(k.0)] + Split(k.1)
      {
        CoversBySegments(f.prefix.value, SpaceName(k.0) + "/" + k.1);
        SplitConcat(SpaceName(k.0), k.1);
        SplitOne(SpaceName(k.0));
      }
    }
  }

  function StartOf(fingerprint: Fingerprint, q: Query): Start {
    match q.cursor
    case None => FromTop
    case Some(Malformed) => BadCursor
    case Some(Token(mark, key)) => if mark == fingerprint(q.filters) then AfterKey(key) else BadCursor
  }

  predicate Beyond(start: Start, k: SortKey) {
    start.AfterKey? ==> Less(start.key, k)
  }

  /** Sort keys, creation time then identifier, of the matching assets past the cursor. */
  function Wanted(assets: Assets, f: Filters, start: Start): set<SortKey> {
    set id | id in assets && Matches(f, assets[id])
      && Beyond(start, (assets[id].createdAt, id)) :: (assets[id].createdAt, id)
  }

  function Least(m: nat, n: nat): nat { if m < n then m else n }

  ghost function PageOf(fingerprint: Fingerprint, assets: Assets, f: Filters, start: Start, limit: nat): (p: Page)
    requires limit >= 1
  {
    var all := Sorted(Wanted(assets, f, start));
    Page(all[..Least(limit, |all|)], if |all| > limit then Some(Token(fingerprint(f), all[limit - 1])) else None)
  }

  // ---------------------------------------------------------------- the query and the page

  function AllKeys(assets: Assets): set<SortKey> {
    set id <- assets :: (assets[id].createdAt, id)
  }

  /** Sorts everything, keeps what matches past the cursor, and cuts off one row beyond the limit. */
  method QueryAssets(assets: Assets, f: Filters, start: Start, limit: nat) returns (rows: seq<SortKey>)
    ensures var all := Sorted(Wanted(assets, f, start)); rows == all[..Least(limit + 1, |all|)]
    ensures forall k <- rows :: k.1 in assets && k.0 == assets[k.1].createdAt && Fits(f, assets[k.1])
  {
    hide Fits;
    var keys := Sort(AllKeys(assets));
    rows := [];
    for i := 0 to |keys|
      invariant Increasing(rows)
      invariant forall r <- rows :: r in Wanted(assets, f, start) && exists j :: 0 <= j < i && keys[j] == r
      invariant forall j | 0 <= j < i :: keys[j] in Wanted(assets, f, start) ==> keys[j] in rows
    {
      var k := keys[i];
      assert k in Elements(keys);
      if Matches(f, assets[k.1]) && Beyond(start, k) {
        forall r <- rows ensures Less(r, k) {
          var j :| 0 <= j < i && keys[j] == r;
        }
        rows := rows + [k];
      }
    }
    assert Elements(rows) == Wanted(assets, f, start) by {
      forall k <- Wanted(assets, f, start) ensures k in rows {
        assert k in AllKeys(assets);
        assert k in Elements(keys);
        var j :| 0 <= j < |keys| && keys[j] == k;
      }
    }
    SortedIsUnique(rows, Sorted(Wanted(assets, f, start)));
    FirstRowsFit(assets, f, start, Least(limit + 1, |rows|));
    rows := rows[..Least(limit + 1, |rows|)];
  }

  lemma FirstRowsFit(assets: Assets, f: Filters, start: Start, n: nat)
    requires n <= |Sorted(Wanted(assets, f, start))|
    ensures forall k <- Sorted(Wanted(assets, f, start))[..n] ::
              k.1 in assets && k.0 == assets[k.1].createdAt && Fits(f, assets[k.1])
  {
    var all := Sorted(Wanted(assets, f, start));
    hide Matches, Fits, Increasing;
    forall k <- all[..n] ensures k.1 in assets && k.0 == assets[k.1].createdAt && Fits(f, assets[k.1]) {
      assert k in Elements(all);
      MatchesInFigures(f, assets[k.1]);
    }
  }

  lemma CutTwice(all: seq<SortKey>, limit: nat)
    requires limit >= 1
    ensures var rows := all[..Least(limit + 1, |all|)];
            && rows[..Least(limit, |rows|)] == all[..Least(limit, |all|)]
            && (|rows| > limit <==> |all| > limit)
            && (|rows| > limit ==> rows[limit - 1] == all[limit - 1])
  {
  }

  method ListAssets(fingerprint: Fingerprint, assets: Assets, q: Query) returns (out: Listing)
    requires q.limit >= 1
    ensures out == if StartOf(fingerprint, q).BadCursor? then Refused(ValidationError)
            else Shown(PageOf(fingerprint, assets, q.filters, StartOf(fingerprint, q), q.limit))
    ensures out.Shown? ==> forall k <- out.page.items :: k.1 in assets && k.0 == assets[k.1].createdAt
                                                         && Fits(q.filters, assets[k.1])
  {
    var start := StartOf(fingerprint, q);
    if start.BadCursor? { return Refused(ValidationError); }
    hide Wanted, Sorted, Increasing, Elements, Less, Beyond, Fits;
    CutTwice(Sorted(Wanted(assets, q.filters, start)), q.limit);
    var rows := QueryAssets(assets, q.filters, start, q.limit);
    var more := |rows| > q.limit;
    var items := rows[..Least(q.limit, |rows|)];
    return Shown(Page(items, if more then Some(Token(fingerprint(q.filters), items[|items| - 1])) else None));
  }

  /** A page's own cursor continues right after it; under other filters it is refused. */
  lemma CursorIsBoundToFilters(fingerprint: Fingerprint, assets: Assets, q: Query, f: Filters)
    requires q.limit >= 1 && PageOf(fingerprint, assets, q.filters, StartOf(fingerprint, q), q.limit).next.Some?
    ensures var p := PageOf(fingerprint, assets, q.filters, StartOf(fingerprint, q), q.limit);
            && p.items != [] && StartOf(fingerprint, q.(cursor := p.next)) == AfterKey(p.items[|p.items| - 1])
            && (StartOf(fingerprint, Query(f, q.limit, p.next)).BadCursor?
               <==> fingerprint(f) != fingerprint(q.filters))
  {
  }

  // ---------------------------------------------------------------- one page

  lemma PageLaws(fingerprint: Fingerprint, assets: Assets, f: Filters, start: Start, limit: nat)
    requires limit >= 1
    ensures var p := PageOf(fingerprint, assets, f, start, limit);
            && Increasing(p.items) && |p.items| <= limit
            && (forall k <- p.items :: k in Wanted(assets, f, start))
            && (p.next.None? ==> Elements(p.items) == Wanted(assets, f, start))
            && (p.next.Some? ==> |p.items| == limit && p.next.value == Token(fingerprint(f), p.items[|p.items| - 1])
                                 && forall k <- Wanted(assets, f, start) ::
                                     k in p.items
                                     || Less(p.items[|p.items| - 1], k))
            && (p.next.Some? ==> exists k <- Wanted(assets, f, start) :: Less(p.items[|p.items| - 1], k))
  {
    var all := Sorted(Wanted(assets, f, start));
    var p := PageOf(fingerprint, assets, f, start, limit);
    forall k <- p.items ensures k in Wanted(assets, f, start) { assert k in Elements(all); }
    if p.next.Some? { assert all[limit] in Elements(all) && Less(all[limit - 1], all[limit]); }
    forall k <- Wanted(assets, f, start) ensures k in p.items || (p.next.Some? && Less(p.items[|p.items| - 1], k)) {
      assert k in Elements(all);
      var i :| 0 <= i < |all| && all[i] == k;
      if i < |p.items| { assert p.items[i] == k; }
    }
  }

  // ---------------------------------------------------------------- walking while things change

  datatype Walk = Walk(items: seq<SortKey>, finished: bool)

  /** Pages asked for one after the other, each of the registry as it is at that moment. */
  ghost function WalkOver(fingerprint: Fingerprint, states: seq<Assets>, f: Filters, start: Start, limit: nat): Walk
    requires limit >= 1
  {
    if states == [] then Walk([], false)
    else
      var p := PageOf(fingerprint, states[0], f, start, limit);
      if p.next.None? then Walk(p.items, true)
      else
        var rest := WalkOver(fingerprint, states[1..], f, AfterKey(p.next.value.key), limit);
        Walk(p.items + rest.items, rest.finished)
  }

  lemma IncreasingConcat(a: seq<SortKey>, b: seq<SortKey>)
    requires Increasing(a) && Increasing(b) && (a != [] ==> forall k <- b :: Less(a[|a| - 1], k))
    ensures Increasing(a + b)
  {
    var s := a + b;
    forall i, j | 0 <= i < j < |s| ensures Less(s[i], s[j]) {
      if i < |a| <= j {
        assert s[j] in b;
        if i < |a| - 1 { LessIsTransitive(s[i], a[|a| - 1], s[j]); }
      }
    }
  }

  /** Keys only ever go up across pages, so no key is shown twice. */
  lemma {:induction false} WalkIncreases(fingerprint: Fingerprint, states: seq<Assets>, f: Filters, start: Start,
                                         limit: nat)
    requires limit >= 1
    ensures Increasing(WalkOver(fingerprint, states, f, start, limit).items)
    ensures forall k <- WalkOver(fingerprint, states, f, start, limit).items :: Beyond(start, k)
  {
    if states != [] {
      PageLaws(fingerprint, states[0], f, start, limit);
      var p := PageOf(fingerprint, states[0], f, start, limit);
      if p.next.Some? {
        var last := p.next.value.key;
        var rest := WalkOver(fingerprint, states[1..], f, AfterKey(last), limit).items;
        WalkIncreases(fingerprint, states[1..], f, AfterKey(last), limit);
        assert forall k <- rest :: Less(last, k) by { assert forall k <- rest :: Beyond(AfterKey(last), k); }
        assert last in p.items && Beyond(start, last);
        hide PageOf, Wanted;
        IncreasingConcat(p.items, rest);
        forall k <- rest ensures Beyond(start, k) {
          if start.AfterKey? { LessIsTransitive(start.key, last, k); }
        }
      }
    }
  }

  /** What is shown matched at the moment its page was made. */
  lemma {:induction false} WalkShowsMatches(fingerprint: Fingerprint, states: seq<Assets>, f: Filters, start: Start,
                                            limit: nat, k: SortKey)
    requires limit >= 1 && k in WalkOver(fingerprint, states, f, start, limit).items
    ensures exists i :: 0 <= i < |states| && k in Wanted(states[i], f, FromTop)
  {
    PageLaws(fingerprint, states[0], f, start, limit);
    var p := PageOf(fingerprint, states[0], f, start, limit);
    if k in p.items {
      assert k in Wanted(states[0], f, FromTop);
    } else {
      WalkShowsMatches(fingerprint, states[1..], f, AfterKey(p.next.value.key), limit, k);
      var i :| 0 <= i < |states| - 1 && k in Wanted(states[1..][i], f, FromTop);
      assert states[i + 1] == states[1..][i];
    }
  }

  /** An asset that matches throughout is not missed by a walk that reaches its end. */
  lemma {:induction false} WalkMissesNothing(fingerprint: Fingerprint, states: seq<Assets>, f: Filters, start: Start,
                                             limit: nat, k: SortKey)
    requires limit >= 1 && WalkOver(fingerprint, states, f, start, limit).finished && Beyond(start, k)
    requires forall i | 0 <= i < |states| :: k in Wanted(states[i], f, FromTop)
    ensures k in WalkOver(fingerprint, states, f, start, limit).items
  {
    PageLaws(fingerprint, states[0], f, start, limit);
    var p := PageOf(fingerprint, states[0], f, start, limit);
    assert k in Wanted(states[0], f, start) by { assert k in Wanted(states[0], f, FromTop); }
    if k in p.items {
    } else if p.next.Some? {
      assert forall i | 0 <= i < |states| - 1 :: states[1..][i] == states[i + 1];
      WalkMissesNothing(fingerprint, states[1..], f, AfterKey(p.next.value.key), limit, k);
    }
  }

  /** No asset is shown twice, as creation times never change. */
  lemma NoAssetTwice(fingerprint: Fingerprint, states: seq<Assets>, f: Filters, limit: nat, i: nat, j: nat)
    requires limit >= 1 && i < j < |WalkOver(fingerprint, states, f, FromTop, limit).items|
    requires forall s, t, id | 0 <= s < |states| && 0 <= t < |states| && id in states[s] && id in states[t] ::
               states[s][id].createdAt == states[t][id].createdAt
    ensures WalkOver(fingerprint, states, f, FromTop, limit).items[i].1 != WalkOver(fingerprint, states, f, FromTop,
            limit).items[j].1
  {
    var items := WalkOver(fingerprint, states, f, FromTop, limit).items;
    WalkIncreases(fingerprint, states, f, FromTop, limit);
    IncreasingHasNoDuplicates(items);
    WalkShowsMatches(fingerprint, states, f, FromTop, limit, items[i]);
    WalkShowsMatches(fingerprint, states, f, FromTop, limit, items[j]);
    var s :| 0 <= s < |states| && items[i] in Wanted(states[s], f, FromTop);
    var t :| 0 <= t < |states| && items[j] in Wanted(states[t], f, FromTop);
    assert items[i].1 in states[s] && items[j].1 in states[t];
  }

  // ---------------------------------------------------------------- walking a registry at rest

  function Repeat(assets: Assets, n: nat): seq<Assets> {
    seq(n, i requires 0 <= i < n => assets)
  }

  lemma FewerBeyond(fingerprint: Fingerprint, assets: Assets, f: Filters, start: Start, limit: nat)
    requires limit >= 1 && PageOf(fingerprint, assets, f, start, limit).next.Some?
    ensures var next := AfterKey(PageOf(fingerprint, assets, f, start, limit).next.value.key);
            Wanted(assets, f, next) < Wanted(assets, f, start)
  {
    PageLaws(fingerprint, assets, f, start, limit);
    var last := PageOf(fingerprint, assets, f, start, limit).next.value.key;
    assert last in Wanted(assets, f, start) && Beyond(start, last);
    LessIsTrichotomous(last, last);
    forall k <- Wanted(assets, f, AfterKey(last)) ensures k in Wanted(assets, f, start) {
      if start.AfterKey? { LessIsTransitive(start.key, last, k); }
    }
    assert last !in Wanted(assets, f, AfterKey(last));
  }

  lemma SmallerSet<T>(a: set<T>, b: set<T>)
    requires a < b
    ensures |a| < |b|
  {
    var x :| x in b && x !in a;
    assert |b| == |a| + |b - a| by { assert b == a + (b - a); }
    assert x in b - a;
  }

  lemma NextIsToken(fingerprint: Fingerprint, assets: Assets, f: Filters, start: Start, limit: nat)
    requires limit >= 1 && PageOf(fingerprint, assets, f, start, limit).next.Some?
    ensures PageOf(fingerprint, assets, f, start, limit).next.value.Token?
  {
  }

  /** The walk ends: every page but the last shows something. */
  lemma {:induction false} WalkFinishes(fingerprint: Fingerprint, assets: Assets, f: Filters, start: Start, limit: nat,
                                        n: nat)
    requires limit >= 1 && n > |Wanted(assets, f, start)|
    ensures WalkOver(fingerprint, Repeat(assets, n), f, start, limit).finished
    decreases n
  {
    hide PageOf, Wanted, Sorted;
    assert n > 0 && Repeat(assets, n)[0] == assets && Repeat(assets, n) != [];
    var p := PageOf(fingerprint, assets, f, start, limit);
    if p.next.Some? {
      NextIsToken(fingerprint, assets, f, start, limit);
      FewerBeyond(fingerprint, assets, f, start, limit);
      SmallerSet(Wanted(assets, f, AfterKey(p.next.value.key)), Wanted(assets, f, start));
      WalkFinishes(fingerprint, assets, f, AfterKey(p.next.value.key), limit, n - 1);
      assert Repeat(assets, n)[1..] == Repeat(assets, n - 1);
    }
  }

  /** With nothing changing, following cursors to the end gives, for every page size, exactly the
      matching assets in order, each once. */
  lemma WalkIsTheSortedList(fingerprint: Fingerprint, assets: Assets, f: Filters, limit: nat, n: nat)
    requires limit >= 1 && n > |Wanted(assets, f, FromTop)|
    ensures WalkOver(fingerprint, Repeat(assets, n), f, FromTop, limit)
            == Walk(Sorted(Wanted(assets, f, FromTop)), true)
  {
    var walk := WalkOver(fingerprint, Repeat(assets, n), f, FromTop, limit);
    WalkFinishes(fingerprint, assets, f, FromTop, limit, n);
    WalkIncreases(fingerprint, Repeat(assets, n), f, FromTop, limit);
    forall k <- walk.items ensures k in Wanted(assets, f, FromTop) {
      WalkShowsMatches(fingerprint, Repeat(assets, n), f, FromTop, limit, k);
    }
    forall k <- Wanted(assets, f, FromTop) ensures k in walk.items {
      WalkMissesNothing(fingerprint, Repeat(assets, n), f, FromTop, limit, k);
    }
    assert Elements(walk.items) == Wanted(assets, f, FromTop);
    SortedIsUnique(walk.items, Sorted(Wanted(assets, f, FromTop)));
  }

  // ---------------------------------------------------------------- in figures

  /** Of two rows the one created first comes first, of those created together the one with the smaller identifier. */
  predicate Earlier(a: SortKey, b: SortKey) {
    a.0 < b.0 || (a.0 == b.0 && Before(a.1, b.1))
  }

  predicate Seen(assets: Assets, f: Filters, k: SortKey) {
    k.1 in assets && k.0 == assets[k.1].createdAt && Fits(f, assets[k.1])
  }

  lemma WantedInFigures(assets: Assets, f: Filters, start: Start, k: SortKey)
    ensures k in Wanted(assets, f, start)
       <==> Seen(assets, f, k) && (start.AfterKey? ==> Earlier(start.key, k))
  {
    hide Matches, Fits, TextLess, Before;
    if k.1 in assets { MatchesInFigures(f, assets[k.1]); }
    if start.AfterKey? { TextInFigures(start.key.1, k.1); }
  }

  lemma EarlierIsLess(a: SortKey, b: SortKey)
    ensures Earlier(a, b) <==> Less(a, b)
  {
    TextInFigures(a.1, b.1);
    hide TextLess, Before;
  }

  /** A page: earliest first, at most `limit` rows, all of which fit and come after the cursor; a further page is
      announced exactly when some that fit are left over, and these come after the last row shown. */
  lemma PageInFigures(fingerprint: Fingerprint, assets: Assets, f: Filters, start: Start, limit: nat)
    requires limit >= 1
    ensures var p := PageOf(fingerprint, assets, f, start, limit);
            && |p.items| <= limit
            && (forall i, j | 0 <= i < j < |p.items| :: Earlier(p.items[i], p.items[j]))
            && (forall k <- p.items :: Seen(assets, f, k) && (start.AfterKey? ==> Earlier(start.key, k)))
            && (p.next.Some? ==>
                 |p.items| == limit && p.next.value == Token(fingerprint(f), p.items[limit - 1])
                 && exists k :: Seen(assets, f, k) && Earlier(p.items[limit - 1], k))
            && forall k | Seen(assets, f, k) && (start.AfterKey? ==> Earlier(start.key, k)) ::
                 k in p.items || (p.next.Some? && Earlier(p.items[limit - 1], k))
  {
    PageLaws(fingerprint, assets, f, start, limit);
    var p := PageOf(fingerprint, assets, f, start, limit);
    hide PageOf, Seen, Less, Earlier, Wanted;
    forall k ensures k in Wanted(assets, f, start) <==>
         Seen(assets, f, k)
         && (start.AfterKey? ==> Earlier(start.key, k)) {
      WantedInFigures(assets, f, start, k);
    }
    forall i, j | 0 <= i < j < |p.items| ensures Earlier(p.items[i], p.items[j]) {
      EarlierIsLess(p.items[i], p.items[j]);
    }
    if p.next.Some? {
      var last := p.items[limit - 1];
      forall k ensures Earlier(last, k) <==> Less(last, k) { EarlierIsLess(last, k); }
    }
  }

  /** Whatever a walk shows fitted the filters when its page was made. */
  lemma WalkShowsWhatFits(fingerprint: Fingerprint, states: seq<Assets>, f: Filters, limit: nat, k: SortKey)
    requires limit >= 1 && k in WalkOver(fingerprint, states, f, FromTop, limit).items
    ensures exists i :: 0 <= i < |states| && Seen(states[i], f, k)
  {
    WalkShowsMatches(fingerprint, states, f, FromTop, limit, k);
    var i :| 0 <= i < |states| && k in Wanted(states[i], f, FromTop);
    WantedInFigures(states[i], f, FromTop, k);
  }

  /** Whatever fits throughout is shown by a walk that reaches its end. */
  lemma WalkShowsAllThatFits(fingerprint: Fingerprint, states: seq<Assets>, f: Filters, limit: nat, k: SortKey)
    requires limit >= 1 && WalkOver(fingerprint, states, f, FromTop, limit).finished
    requires forall i | 0 <= i < |states| :: Seen(states[i], f, k)
    ensures k in WalkOver(fingerprint, states, f, FromTop, limit).items
  {
    forall i | 0 <= i < |states| ensures k in Wanted(states[i], f, FromTop) {
      WantedInFigures(states[i], f, FromTop, k);
    }
    WalkMissesNothing(fingerprint, states, f, FromTop, limit, k);
  }
}
