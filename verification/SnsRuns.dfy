/** What holds of the SNS cache in every run of its calls, interleaved at their awaits. */
module SnsRuns {
  import opened Prelude
  import opened OrderedKeys
  import opened SnsTypes
  import opened SnsCache

  /** The stretches of the calls that change the maps, with the answers they act on. */
  datatype Event =
    | FetchAnswered(canisterId: string, fetched: seq<SnsProposal>, now: nat)
    | RootAnswered(fullRefresh: bool)
    | MetadataAnswered(answers: seq<Option<Metadata>>)
    | RemoveCalled(removed: string)
    | AddCalled(canister: SnsCanister)
    | CanistersImported(list: seq<SnsCanister>)
    | ProposalsImported(pairs: seq<(ProposalKey, SnsProposal)>)

  function Next(c: Cache, e: Event): Cache {
    match e
    case FetchAnswered(id, fetched, now) => FetchEnd(c, id, fetched, now)
    case RootAnswered(full) => RefreshBegin(c, full)
    case MetadataAnswered(answers) => c.(canisters := RefreshEnd(c.canisters, answers))
    case RemoveCalled(id) =>
      if ValidId(id) && id in c.canisters then Cache(c.canisters - {id}, OthersThan(c.proposals, id)) else c
    case AddCalled(x) =>
      if ValidId(x.canisterId) && x.canisterId !in c.canisters
      then c.(canisters := c.canisters[x.canisterId := x]) else c
    case CanistersImported(list) => c.(canisters := Imported(c.canisters, list))
    case ProposalsImported(pairs) => c.(proposals := ImportedProposals(c.proposals, pairs))
  }

  function After(es: seq<Event>): Cache {
    if es == [] then Cache(map[], map[]) else Next(After(es[..|es| - 1]), es[|es| - 1])
  }

  lemma {:induction false} RefreshKeepsKeys(cs: Canisters, answers: seq<Option<Metadata>>)
    requires KeyedById(cs)
    ensures KeyedById(RefreshEnd(cs, answers))
    decreases |answers|
  {
    if answers != [] {
      RefreshKeepsKeys(cs, answers[..|answers| - 1]);
    }
  }

  lemma {:induction false} ImportKeepsKeys(cs: Canisters, list: seq<SnsCanister>)
    requires KeyedById(cs)
    ensures KeyedById(Imported(cs, list))
    decreases |list|
  {
    if list != [] {
      ImportKeepsKeys(cs, list[..|list| - 1]);
    }
  }

  /** Every reachable canister map is keyed by canister id. */
  lemma {:induction false} ReachableIsKeyed(es: seq<Event>)
    ensures KeyedById(After(es).canisters)
    decreases |es|
  {
    if es != [] {
      var init := es[..|es| - 1];
      ReachableIsKeyed(init);
      match es[|es| - 1]
      case MetadataAnswered(answers) => RefreshKeepsKeys(After(init).canisters, answers);
      case CanistersImported(list) => ImportKeepsKeys(After(init).canisters, list);
      case _ =>
    }
  }

  /** So the linear scan of `get_sns_canister` always equals a keyed lookup. */
  lemma ReachableScanIsLookup(es: seq<Event>, canisterId: string)
    ensures FirstWithId(Values(After(es).canisters), canisterId)
         == if canisterId in After(es).canisters then Some(After(es).canisters[canisterId]) else None
  {
    ReachableIsKeyed(es);
    ScanIsLookup(After(es).canisters, canisterId);
  }

  // ---- add and remove ----

  /** A well-formed id is not empty and has a dash; only a new one is added, only a known one removed. */
  lemma AddsOrRefuses(c: Cache, x: SnsCanister)
    ensures var id := x.canisterId;
            Next(c, AddCalled(x)) ==
              if id == "" || '-' !in id || id in c.canisters then c
              else Cache(c.canisters[id := x], c.proposals)
  {
  }

  lemma RemovesOrRefuses(c: Cache, id: string)
    ensures var c' := Next(c, RemoveCalled(id));
            if id == "" || '-' !in id || id !in c.canisters then c' == c
            else
              && id !in c'.canisters && KeysOf(c'.proposals, id) == {}
              && (forall j :: j in c.canisters && j != id ==> j in c'.canisters && c'.canisters[j] == c.canisters[j])
              && (forall k :: k in c'.proposals <==> k in c.proposals && k.canisterId != id)
              && (forall k :: k in c'.proposals ==> c'.proposals[k] == c.proposals[k])
  {
  }

  // ---- refresh ----

  /** The last answer about an id, if there is one. */
  function LastAnswer(answers: seq<Option<Metadata>>, id: string): Option<Metadata> {
    if answers == [] then None
    else
      var a := answers[|answers| - 1];
      if a.Some? && a.value.governanceId == id then a else LastAnswer(answers[..|answers| - 1], id)
  }

  /** The entry holds what was answered, with no proposals counted yet. */
  ghost predicate Describes(x: SnsCanister, id: string, m: Metadata) {
    && x.id == id && x.canisterId == id
    && x.name == (if m.name.Some? then m.name.value else "SNS " + id)
    && x.description == (if m.description.Some? then m.description.value else "")
    && x.logo == m.logo && x.url == m.url
    && x.totalProposals == 0 && x.activeProposals == 0 && x.lastActivity == m.answeredAt
  }

  lemma {:induction false} RefreshedEntry(cs: Canisters, answers: seq<Option<Metadata>>, id: string)
    ensures match LastAnswer(answers, id)
            case Some(m) => id in RefreshEnd(cs, answers) && Describes(RefreshEnd(cs, answers)[id], id, m)
            case None =>
              && (id in RefreshEnd(cs, answers) <==> id in cs)
              && (id in cs ==> RefreshEnd(cs, answers)[id] == cs[id])
    decreases |answers|
  {
    if answers != [] {
      RefreshedEntry(cs, answers[..|answers| - 1], id);
    }
  }

  /** A full refresh leaves no proposals, and of canisters exactly those that answered, each by its last answer. */
  lemma FullRefresh(c: Cache, answers: seq<Option<Metadata>>)
    ensures var c' := Next(Next(c, RootAnswered(true)), MetadataAnswered(answers));
            && c'.proposals == map[]
            && (forall id :: id in c'.canisters <==> LastAnswer(answers, id).Some?)
            && (forall id :: id in c'.canisters ==> Describes(c'.canisters[id], id, LastAnswer(answers, id).value))
  {
    forall id: string {
      RefreshedEntry(map[], answers, id);
    }
  }

  /** An incremental refresh keeps every proposal and every canister that did not answer. */
  lemma IncrementalRefresh(c: Cache, answers: seq<Option<Metadata>>)
    ensures var c' := Next(Next(c, RootAnswered(false)), MetadataAnswered(answers));
            && c'.proposals == c.proposals
            && (forall id :: id in c'.canisters <==> id in c.canisters || LastAnswer(answers, id).Some?)
            && (forall id :: id in c'.canisters ==>
                  match LastAnswer(answers, id)
                  case Some(m) => Describes(c'.canisters[id], id, m)
                  case None => id in c.canisters && c'.canisters[id] == c.canisters[id])
  {
    forall id: string {
      RefreshedEntry(c.canisters, answers, id);
    }
  }

  // ---- fetch ----

  function ExecutionOf(p: SnsProposal): nat {
    if p.executedAt.Some? then p.executedAt.value else 0
  }

  lemma {:induction false} LatestIsMaximum(fetched: seq<SnsProposal>)
    requires fetched != []
    ensures forall i :: 0 <= i < |fetched| ==> ExecutionOf(fetched[i]) <= LatestExecution(fetched)
    ensures exists i :: 0 <= i < |fetched| && ExecutionOf(fetched[i]) == LatestExecution(fetched)
    decreases |fetched|
  {
    var n := |fetched| - 1;
    assert ExecutionOf(fetched[n]) <= LatestExecution(fetched);
    if n > 0 && LatestExecution(fetched) != ExecutionOf(fetched[n]) {
      LatestIsMaximum(fetched[..n]);
      var i :| 0 <= i < n && ExecutionOf(fetched[..n][i]) == LatestExecution(fetched[..n]);
      assert ExecutionOf(fetched[i]) == LatestExecution(fetched);
    } else if n > 0 {
      LatestIsMaximum(fetched[..n]);
    }
    forall i | 0 <= i < n
      ensures ExecutionOf(fetched[i]) <= LatestExecution(fetched)
    {
      assert fetched[i] == fetched[..n][i];
    }
  }

  /**
   A fetch stores its proposals, whether its canister is there or not. Of that canister it
   changes only the counts and the last activity, which is the latest execution time
   fetched, or now if nothing was; of the others nothing.
   */
  lemma FetchTouchesOnly(c: Cache, id: string, fetched: seq<SnsProposal>, now: nat)
    ensures var c' := FetchEnd(c, id, fetched, now);
            && c'.proposals == Stored(c.proposals, id, fetched)
            && c'.canisters.Keys == c.canisters.Keys
            && (forall j :: j in c.canisters && j != id ==> c'.canisters[j] == c.canisters[j])
            && (id in c.canisters ==>
                  var x, x' := c.canisters[id], c'.canisters[id];
                  && x' == x.(totalProposals := x'.totalProposals, activeProposals := x'.activeProposals,
                              lastActivity := x'.lastActivity)
                  && (fetched == [] ==> x'.lastActivity == now)
                  && (forall i :: 0 <= i < |fetched| ==> ExecutionOf(fetched[i]) <= x'.lastActivity)
                  && (fetched != [] ==> exists i :: 0 <= i < |fetched| && ExecutionOf(fetched[i]) == x'.lastActivity))
  {
    if fetched != [] {
      LatestIsMaximum(fetched);
    }
  }

  // ---- the cached counts ----

  /** The counts on the entry are those of the proposal map, or both still zero. */
  ghost predicate CountsOk(c: Cache, id: string)
    requires id in c.canisters
  {
    var x := c.canisters[id];
    || (x.totalProposals == WrapU32(|KeysOf(c.proposals, id)|)
        && x.activeProposals == WrapU32(|OpenKeysOf(c.proposals, id)|))
    || (x.totalProposals == 0 && x.activeProposals == 0)
  }

  ghost predicate AllCountsOk(c: Cache) {
    forall id :: id in c.canisters ==> CountsOk(c, id)
  }

  /** The events of refresh, fetch and remove calls. */
  predicate CountsOnly(e: Event) {
    e.FetchAnswered? || e.RootAnswered? || e.MetadataAnswered? || e.RemoveCalled?
  }

  /** Two proposal maps with the same entries for a canister give it the same counts. */
  lemma SameEntriesSameCounts(ps: Proposals, qs: Proposals, id: string)
    requires forall k: ProposalKey :: k.canisterId == id ==> (k in ps <==> k in qs) && (k in ps ==> qs[k] == ps[k])
    ensures KeysOf(ps, id) == KeysOf(qs, id) && OpenKeysOf(ps, id) == OpenKeysOf(qs, id)
  {
  }

  lemma {:induction false} RefreshResetsCounts(cs: Canisters, answers: seq<Option<Metadata>>)
    ensures forall id :: id in RefreshEnd(cs, answers) ==>
      var x := RefreshEnd(cs, answers)[id];
      (id in cs && x == cs[id]) || (x.totalProposals == 0 && x.activeProposals == 0)
    decreases |answers|
  {
    if answers != [] {
      RefreshResetsCounts(cs, answers[..|answers| - 1]);
    }
  }

  lemma FetchKeepsOthersCounts(c: Cache, id: string, fetched: seq<SnsProposal>, now: nat, j: string)
    requires j != id && j in c.canisters && CountsOk(c, j)
    ensures j in FetchEnd(c, id, fetched, now).canisters && CountsOk(FetchEnd(c, id, fetched, now), j)
  {
    StoredExactly(c.proposals, id, fetched);
    SameEntriesSameCounts(c.proposals, Stored(c.proposals, id, fetched), j);
  }

  lemma FetchKeepsCounts(c: Cache, id: string, fetched: seq<SnsProposal>, now: nat)
    requires AllCountsOk(c)
    ensures AllCountsOk(FetchEnd(c, id, fetched, now))
  {
    var c' := FetchEnd(c, id, fetched, now);
    forall j | j in c'.canisters
      ensures CountsOk(c', j)
    {
      if j == id {
        FetchMakesCountsExact(c, id, fetched, now);
      } else {
        assert CountsOk(c, j);
        FetchKeepsOthersCounts(c, id, fetched, now, j);
      }
    }
  }

  lemma RemoveKeepsCounts(c: Cache, id: string)
    requires AllCountsOk(c)
    ensures AllCountsOk(Next(c, RemoveCalled(id)))
  {
    var c' := Next(c, RemoveCalled(id));
    forall j | j in c'.canisters
      ensures CountsOk(c', j)
    {
      assert CountsOk(c, j);
      if c' != c {
        SameEntriesSameCounts(c.proposals, c'.proposals, j);
      }
    }
  }

  lemma MetadataKeepsCounts(c: Cache, answers: seq<Option<Metadata>>)
    requires AllCountsOk(c)
    ensures AllCountsOk(Next(c, MetadataAnswered(answers)))
  {
    var c' := Next(c, MetadataAnswered(answers));
    RefreshResetsCounts(c.canisters, answers);
    forall j | j in c'.canisters
      ensures CountsOk(c', j)
    {
      assert j in c.canisters ==> CountsOk(c, j);
    }
  }

  /** In every run of refresh, fetch and remove calls, stored counts are exact or still zero. */
  lemma {:induction false} CountsInRuns(es: seq<Event>)
    requires forall i :: 0 <= i < |es| ==> CountsOnly(es[i])
    ensures AllCountsOk(After(es))
    decreases |es|
  {
    if es != [] {
      var init := es[..|es| - 1];
      CountsInRuns(init);
      match es[|es| - 1]
      case FetchAnswered(id, fetched, now) => FetchKeepsCounts(After(init), id, fetched, now);
      case RemoveCalled(id) => RemoveKeepsCounts(After(init), id);
      case MetadataAnswered(answers) => MetadataKeepsCounts(After(init), answers);
      case _ =>
    }
  }

  /** From any cache at all, a fetch that still finds its canister makes its counts exact. */
  lemma FetchMakesCountsExact(c: Cache, id: string, fetched: seq<SnsProposal>, now: nat)
    requires id in c.canisters
    ensures var c' := FetchEnd(c, id, fetched, now);
            && id in c'.canisters
            && c'.canisters[id].totalProposals == WrapU32(|KeysOf(c'.proposals, id)|)
            && c'.canisters[id].activeProposals == WrapU32(|OpenKeysOf(c'.proposals, id)|)
  {
    CountsAreFilterCounts(FetchEnd(c, id, fetched, now).proposals, id);
  }

  // ---- the bound on the counts, in runs of all calls ----

  /** A canister's stored counts do not exceed those of the proposal map. */
  ghost predicate Within(ps: Proposals, id: string, x: SnsCanister) {
    x.totalProposals <= |KeysOf(ps, id)| && x.activeProposals <= |OpenKeysOf(ps, id)|
  }

  ghost predicate Bounded(c: Cache) {
    forall id :: id in c.canisters ==> Within(c.proposals, id, c.canisters[id])
  }

  /** What an import makes of an id: its last entry in the list, if it is there. */
  function LastWithId(list: seq<SnsCanister>, id: string): Option<SnsCanister> {
    if list == [] then None
    else if list[|list| - 1].canisterId == id then Some(list[|list| - 1])
    else LastWithId(list[..|list| - 1], id)
  }

  /** What an import makes of a key: its last proposal in the list, if it is there. */
  function LastImport(pairs: seq<(ProposalKey, SnsProposal)>, k: ProposalKey): Option<SnsProposal> {
    if pairs == [] then None
    else if pairs[|pairs| - 1].0 == k then Some(pairs[|pairs| - 1].1)
    else LastImport(pairs[..|pairs| - 1], k)
  }

  /** The canister's open proposals that an import replaces by ones that are not open. */
  function Closing(ps: Proposals, pairs: seq<(ProposalKey, SnsProposal)>, id: string): set<ProposalKey> {
    set k | k in OpenKeysOf(ps, id) && LastImport(pairs, k).Some? && LastImport(pairs, k).value.status != "Open"
  }

  /** The keys under which an import newly stores an open proposal of the canister. */
  function Opening(ps: Proposals, pairs: seq<(ProposalKey, SnsProposal)>, id: string): set<ProposalKey> {
    set i | 0 <= i < |pairs| && pairs[i].0.canisterId == id && pairs[i].0 !in OpenKeysOf(ps, id)
            && LastImport(pairs, pairs[i].0).Some? && LastImport(pairs, pairs[i].0).value.status == "Open" :: pairs[i].0
  }

  /**
   The events that keep the bound: an added canister, and each imported one that
   lasts, must carry counts within the proposal map; imported proposals must not
   close more of a stored canister's proposals than its count can spare.
   */
  ghost predicate Admissible(c: Cache, e: Event) {
    match e
    case AddCalled(x) =>
      ValidId(x.canisterId) && x.canisterId !in c.canisters ==> Within(c.proposals, x.canisterId, x)
    case CanistersImported(list) =>
      forall id :: LastWithId(list, id).Some? ==> Within(c.proposals, id, LastWithId(list, id).value)
    case ProposalsImported(pairs) =>
      forall id :: id in c.canisters ==>
        c.canisters[id].activeProposals + |Closing(c.proposals, pairs, id)|
        <= |OpenKeysOf(c.proposals, id)| + |Opening(c.proposals, pairs, id)|
    case _ => true
  }

  lemma AddKeepsBoundIff(c: Cache, x: SnsCanister)
    requires Bounded(c)
    ensures Bounded(Next(c, AddCalled(x))) <==> Admissible(c, AddCalled(x))
  {
    var c' := Next(c, AddCalled(x));
    if ValidId(x.canisterId) && x.canisterId !in c.canisters {
      assert c'.canisters[x.canisterId] == x;
      assert Bounded(c') ==> Within(c'.proposals, x.canisterId, x);
    }
  }

  lemma {:induction false} LastIdStored(cs: Canisters, list: seq<SnsCanister>, id: string)
    ensures match LastWithId(list, id)
            case Some(x) => id in Imported(cs, list) && Imported(cs, list)[id] == x
            case None => (id in Imported(cs, list) <==> id in cs) && (id in cs ==> Imported(cs, list)[id] == cs[id])
    decreases |list|
  {
    if list != [] {
      LastIdStored(cs, list[..|list| - 1], id);
    }
  }

  lemma ImportKeepsBoundIff(c: Cache, list: seq<SnsCanister>)
    requires Bounded(c)
    ensures Bounded(Next(c, CanistersImported(list))) <==> Admissible(c, CanistersImported(list))
  {
    var c' := Next(c, CanistersImported(list));
    forall id
      ensures LastWithId(list, id).Some? ==>
                id in c'.canisters && c'.canisters[id] == LastWithId(list, id).value
      ensures id in c'.canisters && LastWithId(list, id) == None ==> Within(c.proposals, id, c'.canisters[id])
    {
      LastIdStored(c.canisters, list, id);
    }
  }

  lemma {:induction false} LastImportStored(ps: Proposals, pairs: seq<(ProposalKey, SnsProposal)>, k: ProposalKey)
    ensures var qs := ImportedProposals(ps, pairs);
            match LastImport(pairs, k)
            case Some(p) => k in qs && qs[k] == p && exists i :: 0 <= i < |pairs| && pairs[i].0 == k
            case None => (k in qs <==> k in ps) && (k in ps ==> qs[k] == ps[k])
    decreases |pairs|
  {
    if pairs != [] {
      var n := |pairs| - 1;
      LastImportStored(ps, pairs[..n], k);
      assert pairs[n].0 == k || LastImport(pairs, k) == LastImport(pairs[..n], k);
    }
  }

  /** What an import of proposals does to a canister's counts. */
  lemma ImportMovesCounts(ps: Proposals, pairs: seq<(ProposalKey, SnsProposal)>, id: string)
    ensures var qs := ImportedProposals(ps, pairs);
            && |KeysOf(ps, id)| <= |KeysOf(qs, id)|
            && |OpenKeysOf(qs, id)| == |OpenKeysOf(ps, id)| - |Closing(ps, pairs, id)| + |Opening(ps, pairs, id)|
  {
    var qs := ImportedProposals(ps, pairs);
    forall k
      ensures k in KeysOf(ps, id) ==> k in KeysOf(qs, id)
      ensures k in OpenKeysOf(qs, id)
         <==> (k in OpenKeysOf(ps, id) && k !in Closing(ps, pairs, id)) || k in Opening(ps, pairs, id)
    {
      LastImportStored(ps, pairs, k);
    }
    SubsetCount(KeysOf(ps, id), KeysOf(qs, id));
    assert OpenKeysOf(qs, id) == (OpenKeysOf(ps, id) - Closing(ps, pairs, id)) + Opening(ps, pairs, id);
    ExchangeCount(OpenKeysOf(ps, id), Closing(ps, pairs, id), Opening(ps, pairs, id));
  }

  lemma SubsetCount<T>(a: set<T>, b: set<T>)
    requires a <= b
    ensures |a| <= |b|
  {
    assert b == a + (b - a);
  }

  lemma ExchangeCount<T>(s: set<T>, gone: set<T>, come: set<T>)
    requires gone <= s && come !! s
    ensures |(s - gone) + come| == |s| - |gone| + |come|
  {
    assert s == (s - gone) + gone;
  }

  lemma ProposalsKeepBoundIff(c: Cache, pairs: seq<(ProposalKey, SnsProposal)>)
    requires Bounded(c)
    ensures Bounded(Next(c, ProposalsImported(pairs))) <==> Admissible(c, ProposalsImported(pairs))
  {
    var c' := Next(c, ProposalsImported(pairs));
    forall id | id in c.canisters
      ensures Within(c'.proposals, id, c.canisters[id])
         <==> c.canisters[id].activeProposals + |Closing(c.proposals, pairs, id)|
              <= |OpenKeysOf(c.proposals, id)| + |Opening(c.proposals, pairs, id)|
    {
      assert Within(c.proposals, id, c.canisters[id]);
      ImportMovesCounts(c.proposals, pairs, id);
    }
  }

  lemma FetchKeepsBound(c: Cache, id: string, fetched: seq<SnsProposal>, now: nat)
    requires Bounded(c)
    ensures Bounded(FetchEnd(c, id, fetched, now))
  {
    var c' := FetchEnd(c, id, fetched, now);
    forall j | j in c'.canisters
      ensures Within(c'.proposals, j, c'.canisters[j])
    {
      if j == id {
        FetchMakesCountsExact(c, id, fetched, now);
      } else {
        assert Within(c.proposals, j, c.canisters[j]);
        StoredExactly(c.proposals, id, fetched);
        SameEntriesSameCounts(c.proposals, c'.proposals, j);
      }
    }
  }

  lemma RemoveKeepsBound(c: Cache, id: string)
    requires Bounded(c)
    ensures Bounded(Next(c, RemoveCalled(id)))
  {
    var c' := Next(c, RemoveCalled(id));
    forall j | j in c'.canisters
      ensures Within(c'.proposals, j, c'.canisters[j])
    {
      assert Within(c.proposals, j, c.canisters[j]);
      if c' != c {
        SameEntriesSameCounts(c.proposals, c'.proposals, j);
      }
    }
  }

  lemma MetadataKeepsBound(c: Cache, answers: seq<Option<Metadata>>)
    requires Bounded(c)
    ensures Bounded(Next(c, MetadataAnswered(answers)))
  {
    var c' := Next(c, MetadataAnswered(answers));
    RefreshResetsCounts(c.canisters, answers);
    forall j | j in c'.canisters
      ensures Within(c'.proposals, j, c'.canisters[j])
    {
      assert j in c.canisters ==> Within(c.proposals, j, c.canisters[j]);
    }
  }

  /** From a bounded cache, an event of any call keeps the bound exactly when it is admissible. */
  lemma BoundKeptIff(c: Cache, e: Event)
    requires Bounded(c)
    ensures Bounded(Next(c, e)) <==> Admissible(c, e)
  {
    match e
    case FetchAnswered(id, fetched, now) => FetchKeepsBound(c, id, fetched, now);
    case RootAnswered(full) =>
    case MetadataAnswered(answers) => MetadataKeepsBound(c, answers);
    case RemoveCalled(id) => RemoveKeepsBound(c, id);
    case AddCalled(x) => AddKeepsBoundIff(c, x);
    case CanistersImported(list) => ImportKeepsBoundIff(c, list);
    case ProposalsImported(pairs) => ProposalsKeepBoundIff(c, pairs);
  }

  /** Every event of a run is admissible where it happens. */
  ghost predicate AllAdmissible(es: seq<Event>) {
    es == [] || (AllAdmissible(es[..|es| - 1]) && Admissible(After(es[..|es| - 1]), es[|es| - 1]))
  }

  /** The bound holds at every moment of a run. */
  ghost predicate AllBounded(es: seq<Event>) {
    Bounded(After(es)) && (es == [] || AllBounded(es[..|es| - 1]))
  }

  /** In any run of all calls, the counts stay within the true ones throughout exactly when every event is admissible. */
  lemma {:induction false} BoundedThroughoutIff(es: seq<Event>)
    ensures AllBounded(es) <==> AllAdmissible(es)
    decreases |es|
  {
    if es != [] {
      var init := es[..|es| - 1];
      BoundedThroughoutIff(init);
      if AllBounded(init) {
        BoundKeptIff(After(init), es[|es| - 1]);
      }
    }
  }

  /** So in every run with admissible adds and imports the counts never exceed the true ones. */
  lemma CountsNeverExceed(es: seq<Event>, id: string)
    requires AllAdmissible(es) && id in After(es).canisters
    ensures After(es).canisters[id].totalProposals <= |KeysOf(After(es).proposals, id)|
    ensures After(es).canisters[id].activeProposals <= |OpenKeysOf(After(es).proposals, id)|
  {
    BoundedThroughoutIff(es);
    assert Within(After(es).proposals, id, After(es).canisters[id]);
  }

  /** Runs of refresh, fetch and remove calls only are admissible. */
  lemma {:induction false} CountsOnlyIsAdmissible(es: seq<Event>)
    requires forall i :: 0 <= i < |es| ==> CountsOnly(es[i])
    ensures AllAdmissible(es)
    decreases |es|
  {
    if es != [] {
      CountsOnlyIsAdmissible(es[..|es| - 1]);
    }
  }

  // ---- events that break the bound ----

  /** Adding or importing a canister can break the bound: its counts are the caller's. */
  lemma AddBreaksBound(x: SnsCanister)
    requires ValidId(x.canisterId) && x.totalProposals > 0
    ensures !Bounded(After([AddCalled(x)])) && !Bounded(After([CanistersImported([x])]))
  {
    AddedAlone(x);
    assert [CanistersImported([x])][..0] == [] && [x][..0] == [];
    assert KeysOf(map[], x.canisterId) == {};
    assert !Within(After([AddCalled(x)]).proposals, x.canisterId, After([AddCalled(x)]).canisters[x.canisterId]);
    assert !Within(After([CanistersImported([x])]).proposals, x.canisterId,
                   After([CanistersImported([x])]).canisters[x.canisterId]);
  }

  lemma AddedAlone(x: SnsCanister)
    requires ValidId(x.canisterId)
    ensures After([AddCalled(x)]) == Cache(map[x.canisterId := x], map[])
  {
    assert [AddCalled(x)][..0] == [];
  }

  /** A canister's one open proposal is fetched: its counts are 1. */
  lemma FetchedAlone(x: SnsCanister, p: SnsProposal, now: nat)
    requires p.status == "Open"
    ensures var id, k := x.canisterId, ProposalKey(x.canisterId, p.id);
            var c := FetchEnd(Cache(map[id := x], map[]), id, [p], now);
            && c.proposals == map[k := p] && c.canisters.Keys == {id}
            && c.canisters[id].totalProposals == c.canisters[id].activeProposals == 1
            && Bounded(c)
  {
    var id, k := x.canisterId, ProposalKey(x.canisterId, p.id);
    var ps: Proposals, c := map[k := p], FetchEnd(Cache(map[id := x], map[]), id, [p], now);
    assert [p][..0] == [];
    assert Stored(map[], id, [p]) == ps;
    assert KeysOf(ps, id) == {k} && OpenKeysOf(ps, id) == {k};
    FetchMakesCountsExact(Cache(map[id := x], map[]), id, [p], now);
    assert Within(c.proposals, id, c.canisters[id]);
  }

  /** The import of a proposal that is not open over the only open one: the stored count is then too high. */
  lemma ClosingImportBreaksBound(x: SnsCanister, p: SnsProposal, q: SnsProposal, now: nat)
    requires ValidId(x.canisterId) && p.status == "Open" && q.status != "Open"
    ensures var id, k := x.canisterId, ProposalKey(x.canisterId, p.id);
            var c := Next(After([AddCalled(x)]), FetchAnswered(id, [p], now));
            Bounded(c) && !Bounded(Next(c, ProposalsImported([(k, q)])))
  {
    AddedAlone(x);
    FetchedAlone(x, p, now);
    var id, k := x.canisterId, ProposalKey(x.canisterId, p.id);
    var c := FetchEnd(Cache(map[id := x], map[]), id, [p], now);
    assert [(k, q)][..0] == [];
    assert LastImport([(k, q)], k) == Some(q);
    assert OpenKeysOf(c.proposals, id) == Closing(c.proposals, [(k, q)], id) == {k};
    assert Opening(c.proposals, [(k, q)], id) == {};
    ProposalsKeepBoundIff(c, [(k, q)]);
  }
}
