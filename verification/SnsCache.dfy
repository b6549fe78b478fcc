/** The two stable maps of the SNS canister and the calls on them. */
module SnsCache {
  import opened Prelude
  import opened OrderedKeys
  import opened SnsTypes

  type Canisters = map<string, SnsCanister>
  type Proposals = map<ProposalKey, SnsProposal>

  datatype Cache = Cache(canisters: Canisters, proposals: Proposals)

  // ---- range scans ----

  function StartKey(canisterId: string): ProposalKey {
    ProposalKey(canisterId, 0)
  }

  function EndKey(canisterId: string): ProposalKey {
    ProposalKey(canisterId, TWO64 - 1)
  }

  function KeysBetween(ps: Proposals, lo: ProposalKey, hi: ProposalKey): set<ProposalKey> {
    set k | k in ps && KeyLe(lo, k) && KeyLe(k, hi)
  }

  /** The keys in `range(lo..=hi)`, ascending. */
  function Range(ps: Proposals, lo: ProposalKey, hi: ProposalKey): seq<ProposalKey> {
    KeyLeIsTotal();
    Listing(KeysBetween(ps, lo, hi), KeyLe)
  }

  function RangeOf(ps: Proposals, canisterId: string): seq<ProposalKey> {
    Range(ps, StartKey(canisterId), EndKey(canisterId))
  }

  /** A canister's proposals, found by looking at every key. */
  function KeysOf(ps: Proposals, canisterId: string): set<ProposalKey> {
    set k | k in ps && k.canisterId == canisterId
  }

  function OpenKeysOf(ps: Proposals, canisterId: string): set<ProposalKey> {
    set k | k in KeysOf(ps, canisterId) && ps[k].status == "Open"
  }

  lemma BetweenBoundsIsFilter(ps: Proposals, canisterId: string)
    ensures KeysBetween(ps, StartKey(canisterId), EndKey(canisterId)) == KeysOf(ps, canisterId)
  {
    StringLeIsTotal();
  }

  /** The range holds exactly the canister's entries, by ascending proposal id. */
  lemma RangeIsFilter(ps: Proposals, canisterId: string)
    ensures forall k :: k in RangeOf(ps, canisterId) <==> k in KeysOf(ps, canisterId)
    ensures |RangeOf(ps, canisterId)| == |KeysOf(ps, canisterId)|
    ensures var ks := RangeOf(ps, canisterId);
            forall i, j :: 0 <= i < j < |ks| ==> ks[i].proposalId < ks[j].proposalId
  {
    KeyLeIsTotal();
    BetweenBoundsIsFilter(ps, canisterId);
    var ks := Listing(KeysOf(ps, canisterId), KeyLe);
    assert RangeOf(ps, canisterId) == ks;
    forall i, j | 0 <= i < j < |ks|
      ensures ks[i].proposalId < ks[j].proposalId
    {
      assert ks[i] in KeysOf(ps, canisterId) && ks[j] in KeysOf(ps, canisterId);
    }
  }

  /** What the scan over a canister's range returns. */
  function ProposalsOf(ps: Proposals, canisterId: string): seq<SnsProposal> {
    RangeIsFilter(ps, canisterId);
    Along(RangeOf(ps, canisterId), ps)
  }

  /** The map without the entries of one canister. */
  function OthersThan(ps: Proposals, canisterId: string): Proposals {
    map k | k in ps && k.canisterId != canisterId :: ps[k]
  }

  /** Removing listed keys one by one. */
  function Without(ps: Proposals, ks: seq<ProposalKey>): Proposals {
    if ks == [] then ps else Without(ps, ks[..|ks| - 1]) - {ks[|ks| - 1]}
  }

  lemma {:induction false} WithoutIsDifference(ps: Proposals, ks: seq<ProposalKey>)
    ensures forall k :: k in Without(ps, ks) <==> k in ps && k !in ks
    ensures forall k :: k in Without(ps, ks) ==> Without(ps, ks)[k] == ps[k]
    decreases |ks|
  {
    if ks != [] {
      WithoutIsDifference(ps, ks[..|ks| - 1]);
      assert ks == ks[..|ks| - 1] + [ks[|ks| - 1]];
    }
  }

  /** Deleting a canister's range deletes its entries and no others. */
  lemma RangeRemovalIsExact(ps: Proposals, canisterId: string)
    ensures Without(ps, RangeOf(ps, canisterId)) == OthersThan(ps, canisterId)
  {
    RangeIsFilter(ps, canisterId);
    WithoutIsDifference(ps, RangeOf(ps, canisterId));
  }

  /** Keys in the listing whose proposal is open: what the filtering scan counts. */
  function OpenKeys(ps: Proposals, ks: seq<ProposalKey>): seq<ProposalKey> {
    if ks == [] then []
    else
      var init, k := OpenKeys(ps, ks[..|ks| - 1]), ks[|ks| - 1];
      if k in ps && ps[k].status == "Open" then init + [k] else init
  }

  lemma {:induction false} OpenKeysCount(ps: Proposals, ks: seq<ProposalKey>, s: set<ProposalKey>)
    requires forall i, j :: 0 <= i < j < |ks| ==> ks[i] != ks[j]
    requires forall k :: k in s <==> k in ks && k in ps && ps[k].status == "Open"
    ensures |OpenKeys(ps, ks)| == |s|
    decreases |ks|
  {
    if ks == [] {
      assert s == {};
    } else {
      var init, k := ks[..|ks| - 1], ks[|ks| - 1];
      assert ks == init + [k];
      assert k !in init;
      if k in s {
        OpenKeysCount(ps, init, s - {k});
      } else {
        OpenKeysCount(ps, init, s);
      }
    }
  }

  function ProposalCount(ps: Proposals, canisterId: string): nat {
    WrapU32(|RangeOf(ps, canisterId)|)
  }

  function ActiveProposalCount(ps: Proposals, canisterId: string): nat {
    WrapU32(|OpenKeys(ps, RangeOf(ps, canisterId))|)
  }

  /** Both counts are those of the plain filter. */
  lemma CountsAreFilterCounts(ps: Proposals, canisterId: string)
    ensures ProposalCount(ps, canisterId) == WrapU32(|KeysOf(ps, canisterId)|)
    ensures ActiveProposalCount(ps, canisterId) == WrapU32(|OpenKeysOf(ps, canisterId)|)
  {
    RangeIsFilter(ps, canisterId);
    OpenKeysCount(ps, RangeOf(ps, canisterId), OpenKeysOf(ps, canisterId));
  }

  // ---- what the calls do ----

  /** Storing fetched proposals under their composite keys. */
  function Stored(ps: Proposals, canisterId: string, fetched: seq<SnsProposal>): Proposals {
    if fetched == [] then ps
    else
      var p := fetched[|fetched| - 1];
      Stored(ps, canisterId, fetched[..|fetched| - 1])[ProposalKey(canisterId, p.id) := p]
  }

  /** Fetched proposals are stored over what was there, under their ids, and nothing else changes. */
  lemma {:induction false} StoredExactly(ps: Proposals, canisterId: string, fetched: seq<SnsProposal>)
    ensures forall p :: p in fetched ==>
      var k := ProposalKey(canisterId, p.id);
      k in Stored(ps, canisterId, fetched) && Stored(ps, canisterId, fetched)[k] in fetched
    ensures forall k :: k in Stored(ps, canisterId, fetched) ==>
      var p := Stored(ps, canisterId, fetched)[k];
      (k in ps && p == ps[k]) || (p in fetched && k == ProposalKey(canisterId, p.id))
    ensures forall k :: k in ps ==> k in Stored(ps, canisterId, fetched)
    ensures forall k :: k in ps && k.canisterId != canisterId ==> Stored(ps, canisterId, fetched)[k] == ps[k]
    decreases |fetched|
  {
    if fetched != [] {
      StoredExactly(ps, canisterId, fetched[..|fetched| - 1]);
    }
  }

  function LatestExecution(fetched: seq<SnsProposal>): nat {
    if fetched == [] then 0
    else
      var t := fetched[|fetched| - 1].executedAt;
      Max(LatestExecution(fetched[..|fetched| - 1]), if t.Some? then t.value else 0)
  }

  /** `fetch_sns_proposals` after its await. */
  function FetchEnd(c: Cache, canisterId: string, fetched: seq<SnsProposal>, now: nat): Cache {
    var ps := Stored(c.proposals, canisterId, fetched);
    if canisterId in c.canisters then
      var canister := c.canisters[canisterId].(
        totalProposals := ProposalCount(ps, canisterId),
        activeProposals := ActiveProposalCount(ps, canisterId),
        lastActivity := if fetched == [] then now else LatestExecution(fetched));
      Cache(c.canisters[canisterId := canister], ps)
    else Cache(c.canisters, ps)
  }

  /** What the governance canister of a deployed SNS answered, and when. */
  datatype Metadata = Metadata(governanceId: string, name: Option<string>, description: Option<string>,
                               logo: Option<string>, url: Option<string>, answeredAt: nat)

  function FreshCanister(m: Metadata): SnsCanister {
    SnsCanister(m.governanceId, if m.name.Some? then m.name.value else "SNS " + m.governanceId, m.governanceId,
                if m.description.Some? then m.description.value else "", m.logo, m.url, 0, 0, m.answeredAt)
  }

  /** `refresh_sns_canisters` after the root canister's answer. */
  function RefreshBegin(c: Cache, fullRefresh: bool): Cache {
    if fullRefresh then Cache(map[], map[]) else c
  }

  /** `refresh_sns_canisters` after all metadata calls; those that failed give no answer. */
  function RefreshEnd(cs: Canisters, answers: seq<Option<Metadata>>): Canisters {
    if answers == [] then cs
    else
      var rest := RefreshEnd(cs, answers[..|answers| - 1]);
      var a := answers[|answers| - 1];
      if a.Some? then rest[a.value.governanceId := FreshCanister(a.value)] else rest
  }

  function Answered(answers: seq<Option<Metadata>>): nat {
    if answers == [] then 0
    else Answered(answers[..|answers| - 1]) + if answers[|answers| - 1].Some? then 1 else 0
  }

  function Imported(cs: Canisters, list: seq<SnsCanister>): Canisters {
    if list == [] then cs
    else Imported(cs, list[..|list| - 1])[list[|list| - 1].canisterId := list[|list| - 1]]
  }

  function ImportedProposals(ps: Proposals, list: seq<(ProposalKey, SnsProposal)>): Proposals {
    if list == [] then ps
    else ImportedProposals(ps, list[..|list| - 1])[list[|list| - 1].0 := list[|list| - 1].1]
  }

  /** The linear scan of `get_sns_canister` over a list of values. */
  function FirstWithId(cs: seq<SnsCanister>, canisterId: string): Option<SnsCanister> {
    if cs == [] then None
    else if cs[0].canisterId == canisterId then Some(cs[0])
    else FirstWithId(cs[1..], canisterId)
  }

  /** The values of the canister map in key order. */
  function Values(cs: Canisters): seq<SnsCanister> {
    StringLeIsTotal();
    Along(Listing(cs.Keys, StringLe), cs)
  }

  ghost predicate KeyedById(cs: Canisters) {
    forall k :: k in cs ==> cs[k].canisterId == k
  }

  lemma {:induction false} ScanFinds(cs: seq<SnsCanister>, canisterId: string)
    ensures match FirstWithId(cs, canisterId)
            case Some(c) => c in cs && c.canisterId == canisterId
            case None => forall c :: c in cs ==> c.canisterId != canisterId
  {
    if cs != [] {
      ScanFinds(cs[1..], canisterId);
      assert cs == [cs[0]] + cs[1..];
    }
  }

  /** In a map keyed by canister id the scan is a lookup. */
  lemma ScanIsLookup(cs: Canisters, canisterId: string)
    requires KeyedById(cs)
    ensures FirstWithId(Values(cs), canisterId)
         == if canisterId in cs then Some(cs[canisterId]) else None
  {
    StringLeIsTotal();
    var ks := Listing(cs.Keys, StringLe);
    ScanFinds(Values(cs), canisterId);
    if canisterId in cs {
      var i :| 0 <= i < |ks| && ks[i] == canisterId;
      assert Values(cs)[i] == cs[canisterId];
    }
  }

  class SnsCanisterStore {
    var canisters: Canisters
    var proposals: Proposals

    function Contents(): Cache
      reads this
    {
      Cache(canisters, proposals)
    }

    constructor ()
      ensures Contents() == Cache(map[], map[])
    {
      canisters, proposals := map[], map[];
    }

    /** Reads the values along a list of keys, one by one. */
    method Collect(keys: seq<ProposalKey>) returns (result: seq<SnsProposal>)
      requires forall k :: k in keys ==> k in proposals
      ensures result == Along(keys, proposals)
    {
      result := [];
      for i := 0 to |keys|
        invariant result == Along(keys[..i], proposals)
      {
        result := result + [proposals[keys[i]]];
      }
      assert keys[..|keys|] == keys;
    }

    method GetProposalsForCanister(canisterId: string) returns (result: seq<SnsProposal>)
      ensures result == ProposalsOf(proposals, canisterId)
    {
      RangeIsFilter(proposals, canisterId);
      result := Collect(RangeOf(proposals, canisterId));
    }

    method GetSnsCanister(canisterId: string) returns (r: Result<SnsCanister, SnsError>)
      ensures r == if canisterId == "" then Err(InvalidCanisterId)
                   else match FirstWithId(Values(canisters), canisterId)
                        case Some(c) => Ok(c)
                        case None => Err(CanisterNotFound)
    {
      if canisterId == "" {
        return Err(InvalidCanisterId);
      }
      var canister := FirstWithId(Values(canisters), canisterId);
      match canister
      case Some(c) => return Ok(c);
      case None => return Err(CanisterNotFound);
    }

    /** Before the await: may the fetch go ahead? */
    method FetchSnsProposalsBegin(canisterId: string) returns (r: Result<(), SnsError>)
      ensures r.Ok? <==> ValidId(canisterId) && FirstWithId(Values(canisters), canisterId).Some?
      ensures r.Err? ==> r.error == if ValidId(canisterId) then CanisterNotFound else InvalidCanisterId
    {
      if canisterId == "" || '-' !in canisterId {
        return Err(InvalidCanisterId);
      }
      if FirstWithId(Values(canisters), canisterId) == None {
        return Err(CanisterNotFound);
      }
      return Ok(());
    }

    method FetchSnsProposalsEnd(canisterId: string, converted: seq<SnsProposal>, now: nat)
      modifies this
      ensures Contents() == FetchEnd(old(Contents()), canisterId, converted, now)
    {
      for i := 0 to |converted|
        invariant canisters == old(canisters)
        invariant proposals == Stored(old(proposals), canisterId, converted[..i])
      {
        assert converted[..i + 1][..i] == converted[..i];
        proposals := proposals[ProposalKey(canisterId, converted[i].id) := converted[i]];
      }
      assert converted[..|converted|] == converted;
      if canisterId in canisters {
        var canister := canisters[canisterId];
        canister := canister.(totalProposals := ProposalCount(proposals, canisterId));
        canister := canister.(activeProposals := ActiveProposalCount(proposals, canisterId));
        canister := canister.(lastActivity := if converted == [] then now else LatestExecution(converted));
        canisters := canisters[canisterId := canister];
      }
    }

    method RefreshAfterRoot(fullRefresh: bool)
      modifies this
      ensures Contents() == RefreshBegin(old(Contents()), fullRefresh)
    {
      if fullRefresh {
        canisters := map[];
        proposals := map[];
      }
    }

    /** Stores what answered; an error is reported when nothing did. */
    method RefreshAfterMetadata(answers: seq<Option<Metadata>>) returns (r: Result<nat, SnsError>)
      modifies this`canisters
      ensures canisters == RefreshEnd(old(canisters), answers)
      ensures r == if Answered(answers) == 0 then Err(CrossCanisterCallFailed) else Ok(Answered(answers))
    {
      var successCount := 0;
      for i := 0 to |answers|
        invariant canisters == RefreshEnd(old(canisters), answers[..i])
        invariant successCount == Answered(answers[..i])
      {
        assert answers[..i + 1][..i] == answers[..i];
        if answers[i].Some? {
          var canister := FreshCanister(answers[i].value);
          canisters := canisters[canister.canisterId := canister];
          successCount := successCount + 1;
        }
      }
      assert answers[..|answers|] == answers;
      return if successCount == 0 then Err(CrossCanisterCallFailed) else Ok(successCount);
    }

    method AddSnsCanister(canister: SnsCanister) returns (r: Result<(), SnsError>)
      modifies this`canisters
      ensures r == if !ValidId(canister.canisterId) then Err(InvalidCanisterId)
                   else if canister.canisterId in old(canisters) then Err(InvalidData) else Ok(())
      ensures canisters == if r.Ok? then old(canisters)[canister.canisterId := canister] else old(canisters)
    {
      if canister.canisterId == "" || '-' !in canister.canisterId {
        return Err(InvalidCanisterId);
      }
      if canister.canisterId in canisters {
        return Err(InvalidData);
      }
      canisters := canisters[canister.canisterId := canister];
      return Ok(());
    }

    method RemoveKeys(keysToRemove: seq<ProposalKey>)
      modifies this`proposals
      ensures proposals == Without(old(proposals), keysToRemove)
    {
      for i := 0 to |keysToRemove|
        invariant proposals == Without(old(proposals), keysToRemove[..i])
      {
        assert keysToRemove[..i + 1][..i] == keysToRemove[..i];
        proposals := proposals - {keysToRemove[i]};
      }
      assert keysToRemove[..|keysToRemove|] == keysToRemove;
    }

    /** Removes the canister and exactly its own proposals. */
    method RemoveSnsCanister(canisterId: string) returns (r: Result<(), SnsError>)
      modifies this
      ensures r == if !ValidId(canisterId) then Err(InvalidCanisterId)
                   else if canisterId !in old(canisters) then Err(CanisterNotFound) else Ok(())
      ensures r.Ok? ==> canisters == old(canisters) - {canisterId}
      ensures r.Ok? ==> proposals == OthersThan(old(proposals), canisterId)
      ensures r.Err? ==> Contents() == old(Contents())
    {
      if canisterId == "" || '-' !in canisterId {
        return Err(InvalidCanisterId);
      }
      if canisterId !in canisters {
        return Err(CanisterNotFound);
      }
      canisters := canisters - {canisterId};
      RangeRemovalIsExact(proposals, canisterId);
      RemoveKeys(RangeOf(proposals, canisterId));
      return Ok(());
    }

    method ImportCanisters(list: seq<SnsCanister>) returns (importedCount: nat)
      modifies this`canisters
      ensures canisters == Imported(old(canisters), list) && importedCount == |list|
    {
      importedCount := 0;
      for i := 0 to |list|
        invariant importedCount == i && canisters == Imported(old(canisters), list[..i])
      {
        assert list[..i + 1][..i] == list[..i];
        canisters := canisters[list[i].canisterId := list[i]];
        importedCount := importedCount + 1;
      }
      assert list[..|list|] == list;
    }

    method ImportProposals(list: seq<(ProposalKey, SnsProposal)>) returns (importedCount: nat)
      modifies this`proposals
      ensures proposals == ImportedProposals(old(proposals), list) && importedCount == |list|
    {
      importedCount := 0;
      for i := 0 to |list|
        invariant importedCount == i && proposals == ImportedProposals(old(proposals), list[..i])
      {
        assert list[..i + 1][..i] == list[..i];
        proposals := proposals[list[i].0 := list[i].1];
        importedCount := importedCount + 1;
      }
      assert list[..|list|] == list;
    }
  }
}
