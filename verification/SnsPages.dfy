/** The paged listings of the SNS canister, and export and import in chunks. */
module SnsPages {
  import opened Numerals
  import opened Prelude
  import opened OrderedKeys
  import opened Paging
  import opened SnsTypes
  import opened SnsCache

  const CANISTER_CHUNK: nat := 20
  const PROPOSAL_CHUNK: nat := 50
  const MAX_LIMIT: nat := 10

  // ---- get_sns_canisters ----

  datatype PaginationInfo = PaginationInfo(
    totalCount: nat, totalPages: nat, currentPage: nat, pageSize: nat,
    hasNextPage: bool, hasPrevPage: bool, nextPageOffset: Option<nat>, prevPageOffset: Option<nat>)

  /** Lower-casing of names is left open: any function will do. */
  type Fold = string -> string

  /** Stable insertion after all names that are not greater. */
  function Insert(cs: seq<SnsCanister>, x: SnsCanister, lower: Fold): seq<SnsCanister> {
    if cs == [] || StringLe(lower(cs[|cs| - 1].name), lower(x.name)) then cs + [x]
    else Insert(cs[..|cs| - 1], x, lower) + [cs[|cs| - 1]]
  }

  function SortByName(cs: seq<SnsCanister>, lower: Fold): seq<SnsCanister> {
    if cs == [] then [] else Insert(SortByName(cs[..|cs| - 1], lower), cs[|cs| - 1], lower)
  }

  /** By lower-cased name, and by canister id where names agree. */
  ghost predicate NameOrdered(cs: seq<SnsCanister>, lower: Fold) {
    forall i, j :: 0 <= i < j < |cs| ==> Before(cs[i], cs[j], lower)
  }

  ghost predicate Before(a: SnsCanister, b: SnsCanister, lower: Fold) {
    && StringLe(lower(a.name), lower(b.name))
    && (lower(a.name) == lower(b.name) ==> StringLe(a.canisterId, b.canisterId) && a.canisterId != b.canisterId)
  }

  ghost predicate IdLess(a: SnsCanister, b: SnsCanister) {
    StringLe(a.canisterId, b.canisterId) && a.canisterId != b.canisterId
  }

  lemma {:induction false} InsertKeepsElements(cs: seq<SnsCanister>, x: SnsCanister, lower: Fold)
    ensures multiset(Insert(cs, x, lower)) == multiset(cs) + multiset{x}
    decreases |cs|
  {
    if !(cs == [] || StringLe(lower(cs[|cs| - 1].name), lower(x.name))) {
      InsertKeepsElements(cs[..|cs| - 1], x, lower);
      assert cs == cs[..|cs| - 1] + [cs[|cs| - 1]];
    }
  }

  lemma {:induction false} SortKeepsElements(cs: seq<SnsCanister>, lower: Fold)
    ensures multiset(SortByName(cs, lower)) == multiset(cs)
    ensures |SortByName(cs, lower)| == |cs|
    decreases |cs|
  {
    if cs != [] {
      var init := cs[..|cs| - 1];
      SortKeepsElements(init, lower);
      InsertKeepsElements(SortByName(init, lower), cs[|cs| - 1], lower);
      assert cs == init + [cs[|cs| - 1]];
      assert |multiset(SortByName(cs, lower))| == |multiset(cs)|;
    }
  }

  lemma {:induction false} InsertKeepsOrder(cs: seq<SnsCanister>, x: SnsCanister, lower: Fold)
    requires NameOrdered(cs, lower)
    requires forall c :: c in cs ==> IdLess(c, x)
    ensures NameOrdered(Insert(cs, x, lower), lower)
    decreases |cs|
  {
    StringLeIsTotal();
    if cs != [] {
      var init, last := cs[..|cs| - 1], cs[|cs| - 1];
      if StringLe(lower(last.name), lower(x.name)) {
        forall i | 0 <= i < |cs|
          ensures Before(cs[i], x, lower)
        {
          assert i < |cs| - 1 ==> Before(cs[i], last, lower);
          assert IdLess(cs[i], x);
        }
      } else {
        InsertKeepsOrder(init, x, lower);
        InsertKeepsElements(init, x, lower);
        var r := Insert(init, x, lower);
        forall i | 0 <= i < |r|
          ensures Before(r[i], last, lower)
        {
          assert r[i] in multiset(init) + multiset{x};
          if r[i] in init {
            var j :| 0 <= j < |init| && init[j] == r[i];
            assert Before(cs[j], cs[|cs| - 1], lower);
          }
        }
      }
    }
  }

  lemma {:induction false} SortIsOrdered(cs: seq<SnsCanister>, lower: Fold)
    requires forall i, j :: 0 <= i < j < |cs| ==> IdLess(cs[i], cs[j])
    ensures NameOrdered(SortByName(cs, lower), lower)
    decreases |cs|
  {
    if cs != [] {
      var init := cs[..|cs| - 1];
      SortIsOrdered(init, lower);
      SortKeepsElements(init, lower);
      forall c | c in SortByName(init, lower)
        ensures IdLess(c, cs[|cs| - 1])
      {
        assert c in multiset(init);
        var i :| 0 <= i < |init| && init[i] == c;
        assert IdLess(cs[i], cs[|cs| - 1]);
      }
      InsertKeepsOrder(SortByName(init, lower), cs[|cs| - 1], lower);
    }
  }

  const NO_PAGE: PaginationInfo := PaginationInfo(0, 0, 0, 0, false, false, None, None)

  /** The offset of the next page, if there is one; the `u32` sum wraps. */
  function NextPage(total: nat, offset: nat, limit: nat): Option<nat> {
    var next := WrapU32(offset + limit);
    if next < total then Some(next) else None
  }

  function PrevPage(offset: nat, limit: nat): Option<nat> {
    if offset == 0 then None else if offset >= limit then Some(offset - limit) else Some(0)
  }

  /** Ceiling division; the `u32` sum wraps. */
  function TotalPages(total: nat, limit: nat): nat
    requires limit > 0
  {
    WrapU32(total + limit - 1) / limit
  }

  /** The page number; the `u32` sum wraps. */
  function CurrentPage(offset: nat, limit: nat): nat
    requires limit > 0
  {
    WrapU32(offset / limit + 1)
  }

  /** The pagination record. */
  function PageInfo(total: nat, offset: nat, limit: nat): PaginationInfo
    requires limit > 0
  {
    var next := NextPage(total, offset, limit);
    PaginationInfo(total, TotalPages(total, limit), CurrentPage(offset, limit), limit,
                   next.Some?, offset > 0, next, PrevPage(offset, limit))
  }

  /** The answer to a page request on the sorted list. */
  function PageAnswer<T>(sorted: seq<T>, offset: nat, limit: nat): (seq<T>, PaginationInfo) {
    if limit == 0 || limit > MAX_LIMIT then ([], NO_PAGE.(pageSize := limit))
    else (Page(sorted, offset, limit), PageInfo(|sorted|, offset, limit))
  }

  /** A limit outside 1 to 10 is answered with nothing. */
  lemma BadLimit<T>(xs: seq<T>, offset: nat, limit: nat)
    ensures limit < 1 || limit > 10 ==>
      PageAnswer(xs, offset, limit) == ([], PaginationInfo(0, 0, 0, limit, false, false, None, None))
    ensures 1 <= limit <= 10 ==> PageAnswer(xs, offset, limit).0 == Page(xs, offset, limit)
  {
  }

  /** The page record in plain terms, for a page that ends within 32 bits. */
  lemma PageInfoTells<T>(xs: seq<T>, offset: nat, limit: nat)
    requires 1 <= limit <= 10 && |xs| + limit < TWO32 && offset + limit < TWO32
    ensures var info := PageAnswer(xs, offset, limit).1;
            && info.totalCount == |xs| && info.pageSize == limit
            && |xs| <= info.totalPages * limit < |xs| + limit
            && (info.hasNextPage <==> Page(xs, offset + limit, limit) != [])
            && info.nextPageOffset == (if Page(xs, offset + limit, limit) != [] then Some(offset + limit) else None)
            && (info.hasPrevPage <==> offset > 0)
            && info.prevPageOffset == if offset == 0 then None else Some(Max(0, offset - limit))
  {
    PageCountBounds(|xs|, limit);
    assert |xs| > offset + limit <==> |Page(xs, offset + limit, limit)| > 0;
  }

  /** The next-page flag is right for every list exactly when the page ends within 32 bits. */
  lemma NextPageRightIff(offset: nat, limit: nat)
    requires 1 <= limit <= 10 && offset < TWO32
    ensures (forall total: nat :: NextPage(total, offset, limit).Some? <==> offset + limit < total)
            <==> offset + limit < TWO32
  {
    if offset + limit >= TWO32 {
      assert NextPage(WrapU32(offset + limit) + 1, offset, limit).Some?;
    }
  }

  method GetSnsCanisters(store: Canisters, lower: Fold, offset: Option<nat>, limit: Option<nat>)
    returns (page: seq<SnsCanister>, info: PaginationInfo)
    ensures (page, info) == PageAnswer(SortByName(Values(store), lower),
                                       if offset.Some? then offset.value else 0,
                                       if limit.Some? then limit.value else 10)
  {
    var o := if offset.Some? then offset.value else 0;
    var l := if limit.Some? then limit.value else 10;
    if l == 0 || l > MAX_LIMIT {
      return [], PaginationInfo(0, 0, 0, l, false, false, None, None);
    }
    var canisters := Values(store);
    canisters := SortByName(canisters, lower);
    info := PageInfo(|canisters|, o, l);
    page := Page(canisters, o, l);
  }

  /** The listed canisters: each stored one once, by lower-cased name, then id. */
  lemma ListingIsSorted(store: Canisters, lower: Fold)
    requires KeyedById(store)
    ensures NameOrdered(SortByName(Values(store), lower), lower)
    ensures multiset(SortByName(Values(store), lower)) == multiset(Values(store))
    ensures |SortByName(Values(store), lower)| == |store|
  {
    StringLeIsTotal();
    var ks, vs := Listing(store.Keys, StringLe), Values(store);
    assert forall i :: 0 <= i < |vs| ==> vs[i].canisterId == ks[i];
    SortIsOrdered(vs, lower);
    SortKeepsElements(vs, lower);
  }

  /** A client following `next_page_offset`, which is `NextPage`: the pages it sees. */
  function Follow<T>(xs: seq<T>, limit: nat, offset: nat): seq<seq<T>>
    requires 0 < limit <= MAX_LIMIT && |xs| + limit < TWO32 && offset <= |xs|
    decreases |xs| - offset
  {
    var next := NextPage(|xs|, offset, limit);
    [Page(xs, offset, limit)] + if next.Some? then Follow(xs, limit, next.value) else []
  }

  function Joined<T>(pages: seq<seq<T>>): seq<T> {
    if pages == [] then [] else pages[0] + Joined(pages[1..])
  }

  lemma {:induction false} FollowFrom<T>(xs: seq<T>, limit: nat, offset: nat)
    requires 0 < limit <= MAX_LIMIT && |xs| + limit < TWO32 && offset <= |xs|
    ensures Joined(Follow(xs, limit, offset)) == xs[offset..]
    decreases |xs| - offset
  {
    var page := Page(xs, offset, limit);
    PageThenRest(xs, offset, limit);
    if offset + limit < |xs| {
      FollowFrom(xs, limit, offset + limit);
      JoinedWith(page, Follow(xs, limit, offset + limit));
    } else {
      JoinedWith(page, []);
    }
  }

  lemma JoinedWith<T>(page: seq<T>, rest: seq<seq<T>>)
    ensures Joined([page] + rest) == page + Joined(rest)
  {
    assert ([page] + rest)[1..] == rest;
  }

  lemma {:induction false} FollowCount<T>(xs: seq<T>, limit: nat, offset: nat)
    requires 0 < limit <= MAX_LIMIT && |xs| + limit < TWO32 && offset <= |xs|
    ensures |Follow(xs, limit, offset)| == Max(1, PageCount(|xs| - offset, limit))
    decreases |xs| - offset
  {
    PageCountStep(|xs| - offset, limit);
    if offset + limit < |xs| {
      FollowCount(xs, limit, offset + limit);
      PageCountStep(|xs| - offset - limit, limit);
    }
  }

  /** Following from the start takes max(1, total pages) calls and yields the whole list. */
  lemma FollowAll<T>(xs: seq<T>, limit: nat)
    requires 0 < limit <= MAX_LIMIT && |xs| + limit < TWO32
    ensures Joined(Follow(xs, limit, 0)) == xs
    ensures |Follow(xs, limit, 0)| == Max(1, PageAnswer(xs, 0, limit).1.totalPages)
  {
    FollowFrom(xs, limit, 0);
    FollowCount(xs, limit, 0);
    assert xs[0..] == xs;
  }

  /** The k-th page after the first is at offset `k * limit`, and says so. */
  lemma FollowedPage<T>(xs: seq<T>, limit: nat, k: nat)
    requires 0 < limit <= MAX_LIMIT && |xs| + limit < TWO32 && k * limit < |xs|
    ensures k < |Follow(xs, limit, 0)|
    ensures Follow(xs, limit, 0)[k] == Page(xs, k * limit, limit)
    ensures var (page, info) := PageAnswer(xs, k * limit, limit);
            && page == Follow(xs, limit, 0)[k] && info.currentPage == k + 1
            && info.nextPageOffset == NextPage(|xs|, k * limit, limit)
            && info.prevPageOffset == if k == 0 then None else Some((k - 1) * limit)
  {
    SteppedIsProduct(0, limit, k);
    FollowedPageFrom(xs, limit, 0, k);
    PageNumber(limit, k);
    PageBefore(limit, k);
  }

  lemma PageBefore(limit: nat, k: nat)
    requires limit > 0
    ensures PrevPage(k * limit, limit) == if k == 0 then None else Some((k - 1) * limit)
  {
    if k > 0 {
      assert k * limit == (k - 1) * limit + limit && (k - 1) * limit >= 0;
    }
  }

  lemma PageNumber(limit: nat, k: nat)
    requires limit > 0 && k * limit + 1 < TWO32
    ensures CurrentPage(k * limit, limit) == k + 1
  {
    RemainderOf(k, limit, 0);
    assert k <= k * limit;
  }

  /** The offset after `k` steps of `limit`. */
  function Stepped(offset: nat, limit: nat, k: nat): nat
    decreases k
  {
    if k == 0 then offset else Stepped(offset + limit, limit, k - 1)
  }

  lemma {:induction false} SteppedIsProduct(offset: nat, limit: nat, k: nat)
    ensures Stepped(offset, limit, k) == offset + k * limit
    decreases k
  {
    if k > 0 {
      SteppedIsProduct(offset + limit, limit, k - 1);
      assert k * limit == limit + (k - 1) * limit;
    }
  }

  lemma {:induction false} FollowedPageFrom<T>(xs: seq<T>, limit: nat, offset: nat, k: nat)
    requires 0 < limit <= MAX_LIMIT && |xs| + limit < TWO32 && offset <= Stepped(offset, limit, k) < |xs|
    ensures k < |Follow(xs, limit, offset)|
    ensures Follow(xs, limit, offset)[k] == Page(xs, Stepped(offset, limit, k), limit)
    decreases k
  {
    if k > 0 {
      SteppedAhead(offset + limit, limit, k - 1);
      assert Follow(xs, limit, offset)[1..] == Follow(xs, limit, offset + limit);
      FollowedPageFrom(xs, limit, offset + limit, k - 1);
    }
  }

  lemma {:induction false} SteppedAhead(offset: nat, limit: nat, k: nat)
    ensures offset <= Stepped(offset, limit, k)
    decreases k
  {
    if k > 0 {
      SteppedAhead(offset + limit, limit, k - 1);
    }
  }

  // ---- chunks ----

  function ChunkLimit(limit: nat, cap: nat): nat {
    if limit > cap then cap else limit
  }

  /** `export_*_chunk`: a slice of the entries in key order. */
  function Chunk<T>(xs: seq<T>, offset: nat, limit: nat, cap: nat): seq<T>
    requires |xs| + cap < TWO32
  {
    var end := Min(WrapU32(offset + ChunkLimit(limit, cap)), |xs|);
    if offset < |xs| then xs[offset..end] else []
  }

  /** The `has_more` flag of `get_*_pagination_info`. */
  predicate HasMore(total: nat, offset: nat, limit: nat, cap: nat) {
    Min(WrapU32(offset + ChunkLimit(limit, cap)), total) < total
  }

  /** A chunk holds at most 20 canisters or 50 proposals, and `has_more` means that something is left after it. */
  lemma ChunkIsSlice<T>(xs: seq<T>, offset: nat, limit: nat, cap: nat)
    requires |xs| + cap < TWO32 && offset + cap < TWO32
    ensures Chunk(xs, offset, limit, cap) == Page(xs, offset, Min(limit, cap))
    ensures HasMore(|xs|, offset, limit, cap) <==> offset + Min(limit, cap) < |xs|
    ensures CANISTER_CHUNK == 20 && PROPOSAL_CHUNK == 50
  {
  }

  /** Stepping by the clamped chunk size while there is more. */
  function ExportAll<T>(xs: seq<T>, offset: nat, limit: nat, cap: nat): seq<seq<T>>
    requires limit >= 1 && cap >= 1 && |xs| + cap < TWO32 && offset <= |xs|
    decreases |xs| - offset
  {
    [Chunk(xs, offset, limit, cap)]
    + if HasMore(|xs|, offset, limit, cap) then ExportAll(xs, offset + ChunkLimit(limit, cap), limit, cap) else []
  }

  lemma {:induction false} ChunksJoin<T>(xs: seq<T>, offset: nat, limit: nat, cap: nat)
    requires limit >= 1 && cap >= 1 && |xs| + cap < TWO32 && offset <= |xs|
    ensures Joined(ExportAll(xs, offset, limit, cap)) == xs[offset..]
    decreases |xs| - offset
  {
    var chunks := ExportAll(xs, offset, limit, cap);
    var next := offset + ChunkLimit(limit, cap);
    if HasMore(|xs|, offset, limit, cap) {
      ChunksJoin(xs, next, limit, cap);
      assert chunks[1..] == ExportAll(xs, next, limit, cap);
    } else {
      assert chunks[1..] == [];
    }
  }

  /** With a limit of 0 stepping would never end on a non-empty store. */
  lemma ZeroLimitNeverAdvances(total: nat, offset: nat, cap: nat)
    requires offset < total < TWO32
    ensures HasMore(total, offset, 0, cap) && offset + ChunkLimit(0, cap) == offset
  {
  }

  function ImportChunks(cs: Canisters, chunks: seq<seq<SnsCanister>>): Canisters
    decreases |chunks|
  {
    if chunks == [] then cs else ImportChunks(Imported(cs, chunks[0]), chunks[1..])
  }

  function ImportProposalChunks(ps: Proposals, chunks: seq<seq<(ProposalKey, SnsProposal)>>): Proposals
    decreases |chunks|
  {
    if chunks == [] then ps else ImportProposalChunks(ImportedProposals(ps, chunks[0]), chunks[1..])
  }

  lemma {:induction false} ImportedConcat(cs: Canisters, a: seq<SnsCanister>, b: seq<SnsCanister>)
    ensures Imported(Imported(cs, a), b) == Imported(cs, a + b)
    decreases |b|
  {
    if b == [] {
      assert a + b == a;
    } else {
      assert (a + b)[..|a + b| - 1] == a + b[..|b| - 1];
      ImportedConcat(cs, a, b[..|b| - 1]);
    }
  }

  lemma {:induction false} ImportChunksJoined(cs: Canisters, chunks: seq<seq<SnsCanister>>)
    ensures ImportChunks(cs, chunks) == Imported(cs, Joined(chunks))
    decreases |chunks|
  {
    if chunks != [] {
      ImportChunksJoined(Imported(cs, chunks[0]), chunks[1..]);
      ImportedConcat(cs, chunks[0], Joined(chunks[1..]));
    }
  }

  lemma {:induction false} ImportedProposalsConcat(ps: Proposals, a: seq<(ProposalKey, SnsProposal)>,
                                                   b: seq<(ProposalKey, SnsProposal)>)
    ensures ImportedProposals(ImportedProposals(ps, a), b) == ImportedProposals(ps, a + b)
    decreases |b|
  {
    if b == [] {
      assert a + b == a;
    } else {
      assert (a + b)[..|a + b| - 1] == a + b[..|b| - 1];
      ImportedProposalsConcat(ps, a, b[..|b| - 1]);
    }
  }

  lemma {:induction false} ImportProposalChunksJoined(ps: Proposals, chunks: seq<seq<(ProposalKey, SnsProposal)>>)
    ensures ImportProposalChunks(ps, chunks) == ImportedProposals(ps, Joined(chunks))
    decreases |chunks|
  {
    if chunks != [] {
      ImportProposalChunksJoined(ImportedProposals(ps, chunks[0]), chunks[1..]);
      ImportedProposalsConcat(ps, chunks[0], Joined(chunks[1..]));
    }
  }

  /** Importing a list of canisters with distinct ids makes each of them an entry, and nothing else. */
  lemma {:induction false} ImportedEntries(list: seq<SnsCanister>)
    requires forall i, j :: 0 <= i < j < |list| ==> list[i].canisterId != list[j].canisterId
    ensures var m := Imported(map[], list);
            && (forall i :: 0 <= i < |list| ==> list[i].canisterId in m && m[list[i].canisterId] == list[i])
            && (forall c :: c in list ==> c.canisterId in m && m[c.canisterId] == c)
            && (forall k :: k in m ==> m[k] in list && m[k].canisterId == k)
    decreases |list|
  {
    if list != [] {
      var init := list[..|list| - 1];
      ImportedEntries(init);
      assert list == init + [list[|list| - 1]];
    }
  }

  /** The entries of the proposal map in key order. */
  function Entries(ps: Proposals): seq<(ProposalKey, SnsProposal)> {
    KeyLeIsTotal();
    var ks := Listing(ps.Keys, KeyLe);
    seq(|ks|, i requires 0 <= i < |ks| => (ks[i], ps[ks[i]]))
  }

  lemma EntriesAreItems(ps: Proposals)
    ensures forall k, v :: (k, v) in Entries(ps) <==> k in ps && ps[k] == v
    ensures forall i, j :: 0 <= i < j < |Entries(ps)| ==> Entries(ps)[i].0 != Entries(ps)[j].0
  {
    KeyLeIsTotal();
    PairedKeys(ps, Listing(ps.Keys, KeyLe), Entries(ps));
  }

  lemma PairedKeys(ps: Proposals, ks: seq<ProposalKey>, es: seq<(ProposalKey, SnsProposal)>)
    requires |es| == |ks| && (forall k :: k in ks <==> k in ps)
    requires forall i :: 0 <= i < |ks| ==> es[i] == (ks[i], ps[ks[i]])
    requires forall i, j :: 0 <= i < j < |ks| ==> ks[i] != ks[j]
    ensures forall k, v :: (k, v) in es <==> k in ps && ps[k] == v
    ensures forall i, j :: 0 <= i < j < |es| ==> es[i].0 != es[j].0
  {
    forall k, v
      ensures (k, v) in es <==> k in ps && ps[k] == v
    {
      if k in ps && ps[k] == v {
        var i :| 0 <= i < |ks| && ks[i] == k;
        assert es[i] == (k, v);
      }
    }
  }

  lemma {:induction false} ImportedPairs(list: seq<(ProposalKey, SnsProposal)>)
    requires forall i, j :: 0 <= i < j < |list| ==> list[i].0 != list[j].0
    ensures var m := ImportedProposals(map[], list);
            && (forall i :: 0 <= i < |list| ==> list[i].0 in m && m[list[i].0] == list[i].1)
            && (forall k :: k in m ==> (k, m[k]) in list)
            && (forall k, v :: (k, v) in list ==> k in m && m[k] == v)
    decreases |list|
  {
    if list != [] {
      var init := list[..|list| - 1];
      ImportedPairs(init);
      assert list == init + [list[|list| - 1]];
    }
  }

  lemma ValuesAreKeyed(cs: Canisters)
    requires KeyedById(cs)
    ensures forall c :: c in Values(cs) <==> c.canisterId in cs && cs[c.canisterId] == c
    ensures forall i, j :: 0 <= i < j < |Values(cs)| ==> Values(cs)[i].canisterId != Values(cs)[j].canisterId
  {
    StringLeIsTotal();
    AlongIsKeyed(cs, Listing(cs.Keys, StringLe));
  }

  lemma AlongIsKeyed(cs: Canisters, ks: seq<string>)
    requires KeyedById(cs) && (forall k :: k in ks <==> k in cs)
    requires forall i, j :: 0 <= i < j < |ks| ==> ks[i] != ks[j]
    ensures forall c :: c in Along(ks, cs) <==> c.canisterId in cs && cs[c.canisterId] == c
    ensures forall i, j :: 0 <= i < j < |ks| ==> Along(ks, cs)[i].canisterId != Along(ks, cs)[j].canisterId
  {
    var vs := Along(ks, cs);
    assert forall i :: 0 <= i < |vs| ==> vs[i] == cs[ks[i]] && vs[i].canisterId == ks[i];
    forall c
      ensures c in vs <==> c.canisterId in cs && cs[c.canisterId] == c
    {
      if c.canisterId in cs && cs[c.canisterId] == c {
        var i :| 0 <= i < |ks| && ks[i] == c.canisterId;
        assert vs[i] == c;
      }
    }
  }

  /** Importing all values of a map keyed by id makes the map. */
  lemma ImportedValues(store: Canisters)
    requires KeyedById(store)
    ensures Imported(map[], Values(store)) == store
  {
    ValuesAreKeyed(store);
    ImportedOnce(store, Values(store));
  }

  lemma ImportedOnce(store: Canisters, list: seq<SnsCanister>)
    requires KeyedById(store)
    requires forall c :: c in list <==> c.canisterId in store && store[c.canisterId] == c
    requires forall i, j :: 0 <= i < j < |list| ==> list[i].canisterId != list[j].canisterId
    ensures Imported(map[], list) == store
  {
    ImportedEntries(list);
    assert forall k :: k in store ==> store[k] in list;
  }

  /** Importing all entries of a proposal map makes the map. */
  lemma ImportedAllEntries(store: Proposals)
    ensures ImportedProposals(map[], Entries(store)) == store
  {
    EntriesAreItems(store);
    ImportedPairsOnce(store, Entries(store));
  }

  lemma ImportedPairsOnce(store: Proposals, list: seq<(ProposalKey, SnsProposal)>)
    requires forall k, v :: (k, v) in list <==> k in store && store[k] == v
    requires forall i, j :: 0 <= i < j < |list| ==> list[i].0 != list[j].0
    ensures ImportedProposals(map[], list) == store
  {
    ImportedPairs(list);
    assert forall k :: k in store ==> (k, store[k]) in list;
  }

  /** Exporting all canisters in chunks and importing the chunks into an empty store gives the store back. */
  lemma CanistersRoundTrip(store: Canisters, limit: nat)
    requires KeyedById(store) && limit >= 1 && |store| + CANISTER_CHUNK < TWO32
    ensures |Values(store)| == |store|
    ensures ImportChunks(map[], ExportAll(Values(store), 0, limit, CANISTER_CHUNK)) == store
  {
    var vs := Values(store);
    ChunksJoin(vs, 0, limit, CANISTER_CHUNK);
    assert vs[0..] == vs;
    ImportChunksJoined(map[], ExportAll(vs, 0, limit, CANISTER_CHUNK));
    ImportedValues(store);
  }

  /** The same for proposals, whose keys travel with them. */
  lemma ProposalsRoundTrip(store: Proposals, limit: nat)
    requires limit >= 1 && |store| + PROPOSAL_CHUNK < TWO32
    ensures |Entries(store)| == |store|
    ensures ImportProposalChunks(map[], ExportAll(Entries(store), 0, limit, PROPOSAL_CHUNK)) == store
  {
    var es := Entries(store);
    ChunksJoin(es, 0, limit, PROPOSAL_CHUNK);
    assert es[0..] == es;
    ImportProposalChunksJoined(map[], ExportAll(es, 0, limit, PROPOSAL_CHUNK));
    ImportedAllEntries(store);
  }
}
