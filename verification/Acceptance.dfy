/** The acceptance verdict: which reasons the evaluation collects, and what a GO then guarantees. */
module Acceptance {
  import opened Basics
  import opened Ordering

  datatype Verdict = Go | NoGo | ProvisionalPass

  // Other is any profile string that is neither "ci" nor "final"; the report command rejects those
  // before it evaluates.
  datatype Profile = CI | Final | Other(name: string)

  datatype Reason =
    | EvidenceMissing | EvidenceShaMismatch | HardGateFailed | UnexpectedMatrixState | RoundsInvalid
    | RtcDataMissing | ManualResultMissing | ManualGateFailed | GitHubActions

  // The zero time, or an instant.
  datatype Time = Zero | At(ns: int)

  /** What parsing a raw JSON message finds. */
  datatype Json = Absent | Malformed | Null | Object(size: nat) | Array(size: nat) | Scalar

  datatype Entry = Entry(id: string, baseline: bool, status: string)

  datatype Block = Block(candidateSha: string, result: string, entries: seq<Entry>, exceptions: nat, summary: Json)

  datatype Evidence = Evidence(
    package: Option<Block>, checkFull: Option<Block>, matrix: Option<Block>,
    pgRange: Option<Block>, rtc: Option<Block>, linuxNative: Option<Block>)

  datatype ManualReview = ManualReview(operator: string, at: Time, result: string, screenshots: nat, risksListed: bool)

  datatype Round = Round(
    sequence: int, candidateSha: string, valid: bool, startedAt: Time, finishedAt: Time,
    environment: Json, evidence: Evidence, manualReview: Option<ManualReview>)

  datatype Input = Input(candidateSha: string, profile: Profile, gitHubActions: bool, rounds: seq<Round>)

  datatype Decision = Decision(verdict: Verdict, provisional: bool, reasonCodes: seq<Reason>)

  const MatrixEntryCount := 104
  const MatrixBaselineCount := 101
  const AllowedNA: set<string> := {"AC-03-F2", "AC-04-F2", "AC-05-S4", "AC-08-F2", "AC-09-F2"}
  const AllowedPending: set<string> := {"AC-03-F6", "AC-08-S8"}

  // ----- small readings

  /** Lower case, exact for results that are compared with ASCII words: besides A to Z, two other
      letters have an ASCII lower case. */
  function Lower(c: char): char {
    if 'A' <= c <= 'Z' then c - 'A' + 'a'
    else if c == '\U{0130}' then 'i'
    else if c == '\U{212A}' then 'k'
    else c
  }

  function ToLower(s: string): string { seq(|s|, i requires 0 <= i < |s| => Lower(s[i])) }

  function Normalize(status: string): string {
    var s := ToLower(status);
    if s == "pass" || s == "passed" then "pass" else if s == "fail" || s == "failed" then "fail" else s
  }

  predicate Passes(status: string) { Normalize(status) == "pass" }

  predicate HasData(json: Json) {
    match json
    case Absent => false
    case Malformed => false
    case Null => false
    case Object(n) => n > 0
    case Array(n) => n > 0
    case Scalar => true
  }

  predicate IsSpace(c: char) {
    || '\t' <= c <= '\r' || c == ' ' || c == '\U{0085}' || c == '\U{00A0}' || c == '\U{1680}'
    || '\U{2000}' <= c <= '\U{200A}' || c == '\U{2028}' || c == '\U{2029}' || c == '\U{202F}' || c == '\U{205F}' || c == '\U{3000}'
  }

  predicate Blank(s: string) { forall i :: 0 <= i < |s| ==> IsSpace(s[i]) }

  // ----- what acceptance asks for

  /** Two rounds, numbered one and two, each with an environment and a positive duration, the second
      not starting before the first has finished. */
  ghost predicate RoundsOk(rounds: seq<Round>) {
    && |rounds| == 2 && rounds[0].sequence == 1 && rounds[1].sequence == 2
    && (forall r :: r in rounds ==>
          HasData(r.environment) && r.startedAt.At? && r.finishedAt.At? && r.finishedAt.ns > r.startedAt.ns)
    && (rounds[0].finishedAt.At? && rounds[1].startedAt.At? ==> rounds[1].startedAt.ns >= rounds[0].finishedAt.ns)
  }

  function Required(profile: Profile, e: Evidence): seq<Option<Block>> {
    if profile.Final? then [e.package, e.checkFull, e.matrix, e.pgRange, e.rtc, e.linuxNative]
    else [e.matrix, e.pgRange, e.rtc]
  }

  /** The gate blocks, the matrix marked. */
  function HardGates(e: Evidence): seq<(Option<Block>, bool)> {
    [(e.package, false), (e.checkFull, false), (e.matrix, true), (e.pgRange, false), (e.linuxNative, false)]
  }

  predicate EntryOk(e: Entry, isMatrix: bool) {
    (!isMatrix || e.baseline) ==>
      Passes(e.status) || (isMatrix && Normalize(e.status) == "n-a" && e.id in AllowedNA)
  }

  ghost predicate GateOk(b: Block, isMatrix: bool) {
    && (b.result != "" ==> Passes(b.result))
    && (!isMatrix && b.result == "" ==> b.entries != [])
    && (forall e :: e in b.entries ==> EntryOk(e, isMatrix))
  }

  predicate StateOk(e: Entry) {
    && (Normalize(e.status) == "pending" ==> e.id in AllowedPending && !e.baseline)
    && (Normalize(e.status) == "n-a" ==> e.id in AllowedNA)
  }

  function BaselineCount(entries: seq<Entry>): nat {
    if entries == [] then 0
    else BaselineCount(entries[..|entries| - 1]) + (if entries[|entries| - 1].baseline then 1 else 0)
  }

  ghost predicate DistinctIds(entries: seq<Entry>) {
    forall i, j :: 0 <= i < j < |entries| ==> entries[i].id != entries[j].id
  }

  ghost predicate Complete(entries: seq<Entry>) {
    && |entries| == MatrixEntryCount
    && (forall e :: e in entries ==> e.id != "")
    && DistinctIds(entries)
    && BaselineCount(entries) == MatrixBaselineCount
  }

  predicate ReviewComplete(r: ManualReview) {
    !Blank(r.operator) && r.at.At? && r.result != "" && r.screenshots > 0 && r.risksListed
  }

  // ----- the reasons, as conditions

  ghost function If(c: bool, r: Reason): set<Reason> { if c then {r} else {} }

  ghost function MissingOrMismatched(required: seq<Option<Block>>, sha: string): (rs: set<Reason>)
    ensures GitHubActions !in rs
  {
    If(exists b :: b in required && b.None?, EvidenceMissing)
    + If(exists b :: b in required && b.Some? && b.value.candidateSha != sha, EvidenceShaMismatch)
  }

  ghost function GateReasons(gates: seq<(Option<Block>, bool)>): (rs: set<Reason>)
    ensures GitHubActions !in rs
  {
    If(exists g :: g in gates && g.0.Some? && !GateOk(g.0.value, g.1), HardGateFailed)
  }

  ghost function MatrixReasons(matrix: Option<Block>): (rs: set<Reason>)
    ensures GitHubActions !in rs
  {
    if matrix.None? then {}
    else
      If(!Complete(matrix.value.entries), EvidenceMissing)
      + If(matrix.value.exceptions > 0 || exists e :: e in matrix.value.entries && !StateOk(e), UnexpectedMatrixState)
  }

  ghost function EvidenceReasons(profile: Profile, sha: string, e: Evidence): (rs: set<Reason>)
    ensures GitHubActions !in rs
  {
    MissingOrMismatched(Required(profile, e), sha) + GateReasons(HardGates(e)) + MatrixReasons(e.matrix)
    + If(e.rtc.Some? && !HasData(e.rtc.value.summary), RtcDataMissing)
  }

  ghost function ReviewReasons(r: Option<ManualReview>): (rs: set<Reason>)
    ensures GitHubActions !in rs
  {
    if r.None? || !ReviewComplete(r.value) then {ManualResultMissing}
    else If(!Passes(r.value.result), ManualGateFailed)
  }

  ghost function RoundReasons(input: Input, r: Round): (rs: set<Reason>)
    ensures GitHubActions !in rs
  {
    If(!r.valid, RoundsInvalid) + If(r.candidateSha != input.candidateSha, EvidenceShaMismatch)
    + EvidenceReasons(input.profile, input.candidateSha, r.evidence)
    + (if input.profile.Final? then ReviewReasons(r.manualReview) else {})
  }

  ghost function Union(parts: seq<set<Reason>>): set<Reason> {
    if parts == [] then {} else Union(parts[..|parts| - 1]) + parts[|parts| - 1]
  }

  ghost function ByRound(input: Input): seq<set<Reason>> {
    seq(|input.rounds|, i requires 0 <= i < |input.rounds| => RoundReasons(input, input.rounds[i]))
  }

  ghost function RoundCount(input: Input): (rs: set<Reason>)
    ensures GitHubActions !in rs
  {
    if input.profile.Final? then If(!RoundsOk(input.rounds), RoundsInvalid) else If(input.rounds == [], RoundsInvalid)
  }

  /** Every reason the evaluation adds. */
  ghost function Reasons(input: Input): set<Reason> {
    RoundCount(input)
    + Union(ByRound(input))
    + If(input.gitHubActions, GitHubActions)
  }

  // ----- the evaluation

  /** The reason set shared by the evaluation functions. */
  class ReasonSet {
    var items: set<Reason>

    constructor ()
      ensures items == {}
    {
      items := {};
    }

    method Add(r: Reason)
      modifies this
      ensures items == old(items) + {r}
    {
      items := items + {r};
    }

    /** A reason other than running under GitHub Actions. */
    method HasFailure() returns (failed: bool)
      ensures failed <==> items - {GitHubActions} != {}
    {
      var rest := items;
      while rest != {}
        invariant rest <= items && items - rest <= {GitHubActions}
      {
        var r :| r in rest;
        if r != GitHubActions {
          assert r in items - {GitHubActions};
          return true;
        }
        rest := rest - {r};
      }
      return false;
    }

    /** The codes in canonical order, each once. */
    method List() returns (codes: seq<Reason>)
      ensures Elems(codes) == items && Ascending(RankLess, codes)
    {
      codes := [];
      var k := 0;
      while k < |Order|
        invariant 0 <= k <= |Order|
        invariant forall r :: r in codes <==> r in items && Rank(r) < k
        invariant Ascending(RankLess, codes)
      {
        OrderRank(k);
        if Order[k] in items { codes := codes + [Order[k]]; }
        k := k + 1;
      }
      forall r ensures r in Elems(codes) <==> r in items {}
    }
  }

  const Order: seq<Reason> := [
    EvidenceMissing, EvidenceShaMismatch, HardGateFailed, UnexpectedMatrixState, RoundsInvalid,
    RtcDataMissing, ManualResultMissing, ManualGateFailed, GitHubActions]

  function Rank(r: Reason): (k: nat)
    ensures k < 9
  {
    match r
    case EvidenceMissing => 0
    case EvidenceShaMismatch => 1
    case HardGateFailed => 2
    case UnexpectedMatrixState => 3
    case RoundsInvalid => 4
    case RtcDataMissing => 5
    case ManualResultMissing => 6
    case ManualGateFailed => 7
    case GitHubActions => 8
  }

  predicate RankLess(a: Reason, b: Reason) { Rank(a) < Rank(b) }

  lemma OrderRank(k: nat)
    requires k < |Order|
    ensures Rank(Order[k]) == k && forall r :: Rank(r) == k ==> r == Order[k]
  {}

  method MatrixIsComplete(entries: seq<Entry>) returns (ok: bool)
    ensures ok <==> Complete(entries)
  {
    if |entries| != MatrixEntryCount { return false; }
    var baselineCount := 0;
    var ids: set<string> := {};
    var k := 0;
    while k < |entries|
      invariant 0 <= k <= |entries|
      invariant ids == Ids(entries[..k]) && "" !in ids && DistinctIds(entries[..k])
      invariant baselineCount == BaselineCount(entries[..k])
    {
      var entry := entries[k];
      NextEntry(entries, k);
      NextBaseline(entries, k);
      if entry.id == "" { return false; }
      if entry.id in ids { return false; }
      ids := ids + {entry.id};
      if entry.baseline { baselineCount := baselineCount + 1; }
      k := k + 1;
    }
    assert entries[..k] == entries;
    return baselineCount == MatrixBaselineCount;
  }

  ghost function Ids(entries: seq<Entry>): set<string> { set e | e in entries :: e.id }

  lemma NextBaseline(entries: seq<Entry>, k: nat)
    requires k < |entries|
    ensures BaselineCount(entries[..k + 1]) == BaselineCount(entries[..k]) + if entries[k].baseline then 1 else 0
  {
    assert entries[..k + 1][..k] == entries[..k];
  }

  lemma NextEntry(entries: seq<Entry>, k: nat)
    requires k < |entries|
    ensures Ids(entries[..k + 1]) == Ids(entries[..k]) + {entries[k].id}
    ensures DistinctIds(entries[..k + 1]) <==> DistinctIds(entries[..k]) && entries[k].id !in Ids(entries[..k])
    ensures DistinctIds(entries) ==> DistinctIds(entries[..k + 1])
  {
    var front := entries[..k];
    assert entries[..k + 1] == front + [entries[k]];
    if entries[k].id in Ids(front) {
      var e :| e in front && e.id == entries[k].id;
      var i :| 0 <= i < k && front[i] == e;
      assert entries[..k + 1][i].id == entries[..k + 1][k].id;
    } else {
      assert forall i :: 0 <= i < k ==> front[i].id in Ids(front);
    }
  }

  method EvaluateFinalRounds(rounds: seq<Round>, reasons: ReasonSet)
    modifies reasons
    ensures reasons.items == old(reasons.items) + If(!RoundsOk(rounds), RoundsInvalid)
  {
    if |rounds| != 2 || rounds[0].sequence != 1 || rounds[1].sequence != 2 {
      reasons.Add(RoundsInvalid);
      return;
    }
    var k := 0;
    ghost var bad := false;
    while k < |rounds|
      invariant 0 <= k <= |rounds|
      invariant reasons.items == old(reasons.items) + If(bad, RoundsInvalid)
      invariant bad <==> exists i :: 0 <= i < k && !TimedOk(rounds[i])
    {
      var r := rounds[k];
      var timingValid := !r.startedAt.Zero? && !r.finishedAt.Zero? && r.finishedAt.ns > r.startedAt.ns;
      if !HasData(r.environment) || !timingValid {
        reasons.Add(RoundsInvalid);
        bad := true;
      }
      k := k + 1;
    }
    var first, second := rounds[0], rounds[1];
    if !first.finishedAt.Zero? && !second.startedAt.Zero? && second.startedAt.ns < first.finishedAt.ns {
      reasons.Add(RoundsInvalid);
    }
    assert rounds[0] in rounds && rounds[1] in rounds;
  }

  predicate TimedOk(r: Round) {
    HasData(r.environment) && r.startedAt.At? && r.finishedAt.At? && r.finishedAt.ns > r.startedAt.ns
  }

  method CheckRequired(required: seq<Option<Block>>, sha: string, reasons: ReasonSet)
    modifies reasons
    ensures reasons.items == old(reasons.items) + MissingOrMismatched(required, sha)
  {
    var k := 0;
    while k < |required|
      invariant 0 <= k <= |required|
      invariant reasons.items == old(reasons.items) + MissingOrMismatched(required[..k], sha)
    {
      var block := required[k];
      assert required[..k + 1] == required[..k] + [block];
      if block.None? {
        reasons.Add(EvidenceMissing);
      } else if block.value.candidateSha != sha {
        reasons.Add(EvidenceShaMismatch);
      }
      k := k + 1;
    }
    assert required[..k] == required;
  }

  method CheckGate(b: Block, isMatrix: bool, reasons: ReasonSet)
    modifies reasons
    ensures reasons.items == old(reasons.items) + If(!GateOk(b, isMatrix), HardGateFailed)
  {
    ghost var bad := false;
    if b.result != "" && Normalize(b.result) != "pass" {
      reasons.Add(HardGateFailed);
      bad := true;
    }
    if !isMatrix && b.result == "" && |b.entries| == 0 {
      reasons.Add(HardGateFailed);
      bad := true;
    }
    ghost var early := bad;
    var k := 0;
    while k < |b.entries|
      invariant 0 <= k <= |b.entries|
      invariant reasons.items == old(reasons.items) + If(bad, HardGateFailed)
      invariant bad <==> early || exists i :: 0 <= i < k && !EntryOk(b.entries[i], isMatrix)
    {
      var entry := b.entries[k];
      var status := Normalize(entry.status);
      var isAllowedMatrixNA := isMatrix && status == "n-a" && entry.id in AllowedNA;
      var isRequired := !isMatrix || entry.baseline;
      if isRequired && status != "pass" && !isAllowedMatrixNA {
        reasons.Add(HardGateFailed);
        bad := true;
      }
      k := k + 1;
    }
    assert bad <==> !GateOk(b, isMatrix);
  }

  method EvaluateMatrix(matrix: Option<Block>, reasons: ReasonSet)
    modifies reasons
    ensures reasons.items == old(reasons.items) + MatrixReasons(matrix)
  {
    if matrix.None? { return; }
    var b := matrix.value;
    var complete := MatrixIsComplete(b.entries);
    if !complete { reasons.Add(EvidenceMissing); }
    ghost var bad := false;
    if b.exceptions > 0 {
      reasons.Add(UnexpectedMatrixState);
      bad := true;
    }
    var k := 0;
    while k < |b.entries|
      invariant 0 <= k <= |b.entries|
      invariant reasons.items == old(reasons.items) + If(!Complete(b.entries), EvidenceMissing) + If(bad, UnexpectedMatrixState)
      invariant bad <==> b.exceptions > 0 || exists i :: 0 <= i < k && !StateOk(b.entries[i])
    {
      var entry := b.entries[k];
      var status := Normalize(entry.status);
      if status == "pending" {
        if entry.id !in AllowedPending || entry.baseline {
          reasons.Add(UnexpectedMatrixState);
          bad := true;
        }
      } else if status == "n-a" {
        if entry.id !in AllowedNA {
          reasons.Add(UnexpectedMatrixState);
          bad := true;
        }
      }
      k := k + 1;
    }
    assert (exists e :: e in b.entries && !StateOk(e)) <==> exists i :: 0 <= i < |b.entries| && !StateOk(b.entries[i]);
  }

  method CheckGates(gates: seq<(Option<Block>, bool)>, reasons: ReasonSet)
    modifies reasons
    ensures reasons.items == old(reasons.items) + GateReasons(gates)
  {
    var k := 0;
    while k < |gates|
      invariant 0 <= k <= |gates|
      invariant reasons.items == old(reasons.items) + GateReasons(gates[..k])
    {
      assert gates[..k + 1] == gates[..k] + [gates[k]];
      if gates[k].0.Some? { CheckGate(gates[k].0.value, gates[k].1, reasons); }
      k := k + 1;
    }
    assert gates[..k] == gates;
  }

  method EvaluateEvidence(profile: Profile, sha: string, e: Evidence, reasons: ReasonSet)
    modifies reasons
    ensures reasons.items == old(reasons.items) + EvidenceReasons(profile, sha, e)
  {
    CheckRequired(Required(profile, e), sha, reasons);
    CheckGates(HardGates(e), reasons);
    EvaluateMatrix(e.matrix, reasons);
    if e.rtc.Some? && !HasData(e.rtc.value.summary) { reasons.Add(RtcDataMissing); }
  }

  method EvaluateManualReview(review: Option<ManualReview>, reasons: ReasonSet)
    modifies reasons
    ensures reasons.items == old(reasons.items) + ReviewReasons(review)
  {
    if review.None? {
      reasons.Add(ManualResultMissing);
      return;
    }
    if !ReviewComplete(review.value) {
      reasons.Add(ManualResultMissing);
      return;
    }
    if Normalize(review.value.result) != "pass" { reasons.Add(ManualGateFailed); }
  }

  method EvaluateRound(input: Input, r: Round, reasons: ReasonSet)
    modifies reasons
    ensures reasons.items == old(reasons.items) + RoundReasons(input, r)
  {
    if !r.valid { reasons.Add(RoundsInvalid); }
    if r.candidateSha != input.candidateSha { reasons.Add(EvidenceShaMismatch); }
    EvaluateEvidence(input.profile, input.candidateSha, r.evidence, reasons);
    if input.profile.Final? { EvaluateManualReview(r.manualReview, reasons); }
  }

  method EvaluateRoundCount(input: Input, reasons: ReasonSet)
    modifies reasons
    ensures reasons.items == old(reasons.items) + RoundCount(input)
  {
    if input.profile.Final? {
      EvaluateFinalRounds(input.rounds, reasons);
    } else if |input.rounds| == 0 {
      reasons.Add(RoundsInvalid);
    }
  }

  method EvaluateRounds(input: Input, reasons: ReasonSet)
    modifies reasons
    ensures reasons.items == old(reasons.items) + Union(ByRound(input))
  {
    ghost var parts := ByRound(input);
    var k := 0;
    while k < |input.rounds|
      invariant 0 <= k <= |input.rounds|
      invariant reasons.items == old(reasons.items) + Union(parts[..k])
    {
      EvaluateRound(input, input.rounds[k], reasons);
      UnionStep(old(reasons.items), parts, k);
      k := k + 1;
    }
    assert parts[..k] == parts;
  }

  /** Evaluate: the reasons in canonical order without repeats; any but GitHub Actions is NO-GO, and
      otherwise a provisional run is a provisional pass. */
  method Evaluate(input: Input) returns (d: Decision)
    ensures Elems(d.reasonCodes) == Reasons(input) && Ascending(RankLess, d.reasonCodes)
    ensures d.provisional <==> input.profile.CI? || input.gitHubActions
    ensures d.verdict.NoGo? <==> Reasons(input) - {GitHubActions} != {}
    ensures d.verdict.Go? <==> !input.profile.CI? && !input.gitHubActions && Reasons(input) == {}
    ensures input.profile.Final? ==> (d.verdict.Go? <==> !input.gitHubActions && Accepted(input))
    ensures input.profile.Final? && d.verdict.Go? ==> forall r :: r in input.rounds ==> MatrixPassed(r.evidence.matrix)
  {
    var provisional := input.profile.CI? || input.gitHubActions;
    var reasons := new ReasonSet();
    EvaluateRoundCount(input, reasons);
    EvaluateRounds(input, reasons);
    if input.gitHubActions { reasons.Add(GitHubActions); }
    assert reasons.items == Reasons(input);
    GitHubActionsOnlyFromInput(input);
    var verdict := Go;
    var failed := reasons.HasFailure();
    if failed {
      verdict := NoGo;
    } else if provisional {
      verdict := ProvisionalPass;
    }
    var codes := reasons.List();
    d := Decision(verdict, provisional, codes);
    WithoutGitHubActions(reasons.items);
    if input.profile.Final? {
      FinalGoMeansAccepted(input);
      if Accepted(input) { AcceptedMatricesPassed(input); }
    }
  }

  lemma UnionStep(base: set<Reason>, parts: seq<set<Reason>>, k: nat)
    requires k < |parts|
    ensures base + Union(parts[..k + 1]) == base + Union(parts[..k]) + parts[k]
  {
    assert parts[..k + 1][..k] == parts[..k];
  }

  lemma {:induction false} UnionMembers(parts: seq<set<Reason>>, r: Reason)
    ensures r in Union(parts) <==> exists i :: 0 <= i < |parts| && r in parts[i]
  {
    if parts != [] { UnionMembers(parts[..|parts| - 1], r); }
  }

  lemma GitHubActionsOnlyFromInput(input: Input)
    ensures GitHubActions in Reasons(input) <==> input.gitHubActions
  {
    UnionMembers(ByRound(input), GitHubActions);
  }

  lemma WithoutGitHubActions(rs: set<Reason>)
    ensures GitHubActions !in rs ==> rs - {GitHubActions} == rs
  {}

  // ----- what a GO guarantees

  /** Present, and gathered on the candidate commit. */
  predicate OnCandidate(b: Option<Block>, sha: string) { b.Some? && b.value.candidateSha == sha }

  ghost predicate MatrixAccepted(matrix: Block) {
    && Complete(matrix.entries) && matrix.exceptions == 0
    && (forall e :: e in matrix.entries ==> StateOk(e))
  }

  ghost predicate EvidenceAccepted(sha: string, e: Evidence) {
    && OnCandidate(e.package, sha) && GateOk(e.package.value, false)
    && OnCandidate(e.checkFull, sha) && GateOk(e.checkFull.value, false)
    && OnCandidate(e.matrix, sha) && GateOk(e.matrix.value, true) && MatrixAccepted(e.matrix.value)
    && OnCandidate(e.pgRange, sha) && GateOk(e.pgRange.value, false)
    && OnCandidate(e.linuxNative, sha) && GateOk(e.linuxNative.value, false)
    && OnCandidate(e.rtc, sha) && HasData(e.rtc.value.summary)
  }

  ghost predicate RoundAccepted(sha: string, r: Round) {
    && r.valid && r.candidateSha == sha && EvidenceAccepted(sha, r.evidence)
    && r.manualReview.Some? && ReviewComplete(r.manualReview.value) && Passes(r.manualReview.value.result)
  }

  ghost predicate Accepted(input: Input) {
    && RoundsOk(input.rounds)
    && (forall r :: r in input.rounds ==> RoundAccepted(input.candidateSha, r))
  }

  lemma NothingMissing(e: Evidence, sha: string)
    ensures MissingOrMismatched(Required(Final, e), sha) == {} <==>
            && OnCandidate(e.package, sha) && OnCandidate(e.checkFull, sha) && OnCandidate(e.matrix, sha)
            && OnCandidate(e.pgRange, sha) && OnCandidate(e.rtc, sha) && OnCandidate(e.linuxNative, sha)
  {
    var required := Required(Final, e);
    assert required[0] == e.package && required[1] == e.checkFull && required[2] == e.matrix;
    assert required[3] == e.pgRange && required[4] == e.rtc && required[5] == e.linuxNative;
    assert (forall b :: b in required ==> OnCandidate(b, sha)) <==>
           forall i :: 0 <= i < 6 ==> OnCandidate(required[i], sha);
    if forall b :: b in required ==> OnCandidate(b, sha) {
      assert MissingOrMismatched(required, sha) == {};
    } else {
      var b :| b in required && !OnCandidate(b, sha);
      assert EvidenceMissing in MissingOrMismatched(required, sha) || EvidenceShaMismatch in MissingOrMismatched(required, sha);
    }
  }

  lemma NoGateFails(e: Evidence)
    ensures GateReasons(HardGates(e)) == {} <==>
            && (e.package.Some? ==> GateOk(e.package.value, false))
            && (e.checkFull.Some? ==> GateOk(e.checkFull.value, false))
            && (e.matrix.Some? ==> GateOk(e.matrix.value, true))
            && (e.pgRange.Some? ==> GateOk(e.pgRange.value, false))
            && (e.linuxNative.Some? ==> GateOk(e.linuxNative.value, false))
  {
    var gates := HardGates(e);
    assert gates[0] in gates && gates[1] in gates && gates[2] in gates && gates[3] in gates && gates[4] in gates;
    assert HardGateFailed in GateReasons(gates) <==> GateReasons(gates) != {};
  }

  lemma NothingInEvidence(sha: string, e: Evidence)
    ensures EvidenceReasons(Final, sha, e) == {} <==> EvidenceAccepted(sha, e)
  {
    NothingMissing(e, sha);
    NoGateFails(e);
    MatrixClean(e.matrix);
    EmptyUnion(MissingOrMismatched(Required(Final, e), sha), GateReasons(HardGates(e)));
    EmptyUnion(MissingOrMismatched(Required(Final, e), sha) + GateReasons(HardGates(e)), MatrixReasons(e.matrix));
    EmptyUnion(MissingOrMismatched(Required(Final, e), sha) + GateReasons(HardGates(e)) + MatrixReasons(e.matrix),
               If(e.rtc.Some? && !HasData(e.rtc.value.summary), RtcDataMissing));
  }

  lemma EmptyUnion(a: set<Reason>, b: set<Reason>)
    ensures a + b == {} <==> a == {} && b == {}
  {
    assert a <= a + b && b <= a + b;
  }

  lemma MatrixClean(matrix: Option<Block>)
    ensures MatrixReasons(matrix) == {} <==> matrix.None? || MatrixAccepted(matrix.value)
  {
    if matrix.Some? {
      var rs := MatrixReasons(matrix);
      assert EvidenceMissing in rs <==> !Complete(matrix.value.entries);
      assert UnexpectedMatrixState in rs <==>
             matrix.value.exceptions > 0 || exists e :: e in matrix.value.entries && !StateOk(e);
      assert rs <= {EvidenceMissing, UnexpectedMatrixState};
    }
  }

  lemma NothingInRound(input: Input, r: Round)
    requires input.profile.Final?
    ensures RoundReasons(input, r) == {} <==> RoundAccepted(input.candidateSha, r)
  {
    NothingInEvidence(input.candidateSha, r.evidence);
    var a, b := If(!r.valid, RoundsInvalid), If(r.candidateSha != input.candidateSha, EvidenceShaMismatch);
    var c, d := EvidenceReasons(input.profile, input.candidateSha, r.evidence), ReviewReasons(r.manualReview);
    EmptyUnion(a, b);
    EmptyUnion(a + b, c);
    EmptyUnion(a + b + c, d);
    assert ManualResultMissing in d || ManualGateFailed in d || d == {};
  }

  lemma EmptyParts(parts: seq<set<Reason>>)
    ensures Union(parts) == {} <==> forall i :: 0 <= i < |parts| ==> parts[i] == {}
  {
    forall r ensures r in Union(parts) <==> exists i :: 0 <= i < |parts| && r in parts[i] {
      UnionMembers(parts, r);
    }
    if i :| 0 <= i < |parts| && parts[i] != {} {
      var r :| r in parts[i];
      assert r in Union(parts);
    }
  }

  lemma NothingInRounds(input: Input)
    requires input.profile.Final?
    ensures Union(ByRound(input)) == {} <==>
            forall i :: 0 <= i < |input.rounds| ==> RoundAccepted(input.candidateSha, input.rounds[i])
  {
    var parts := ByRound(input);
    EmptyParts(parts);
    forall i | 0 <= i < |input.rounds| ensures parts[i] == {} <==> RoundAccepted(input.candidateSha, input.rounds[i]) {
      NothingInRound(input, input.rounds[i]);
    }
  }

  /** A final report collects no reason exactly when it is run outside GitHub Actions and both rounds
      meet every acceptance condition. */
  lemma FinalGoMeansAccepted(input: Input)
    requires input.profile.Final?
    ensures Reasons(input) == {} <==> !input.gitHubActions && Accepted(input)
  {
    NothingInRounds(input);
    var a, b, c := RoundCount(input), Union(ByRound(input)), If(input.gitHubActions, GitHubActions);
    EmptyUnion(a, b);
    EmptyUnion(a + b, c);
    assert RoundsInvalid in a <==> a != {};
    assert GitHubActions in c <==> c != {};
  }

  // ----- the other profiles

  /** What a round outside the final profile must show: three blocks, no manual review, no timing; the
      blocks that are not required still count when present. */
  ghost predicate RoundSuffices(sha: string, r: Round) {
    var e := r.evidence;
    && r.valid && r.candidateSha == sha
    && OnCandidate(e.matrix, sha) && GateOk(e.matrix.value, true) && MatrixAccepted(e.matrix.value)
    && OnCandidate(e.pgRange, sha) && GateOk(e.pgRange.value, false)
    && OnCandidate(e.rtc, sha) && HasData(e.rtc.value.summary)
    && (e.package.Some? ==> GateOk(e.package.value, false))
    && (e.checkFull.Some? ==> GateOk(e.checkFull.value, false))
    && (e.linuxNative.Some? ==> GateOk(e.linuxNative.value, false))
  }

  lemma ThreeNotMissing(profile: Profile, e: Evidence, sha: string)
    requires !profile.Final?
    ensures MissingOrMismatched(Required(profile, e), sha) == {} <==>
            OnCandidate(e.matrix, sha) && OnCandidate(e.pgRange, sha) && OnCandidate(e.rtc, sha)
  {
    var required := Required(profile, e);
    var rs := MissingOrMismatched(required, sha);
    assert required[0] in required && required[1] in required && required[2] in required;
    assert rs == {} <==> EvidenceMissing !in rs && EvidenceShaMismatch !in rs;
  }

  lemma NothingInOtherRound(input: Input, r: Round)
    requires !input.profile.Final?
    ensures RoundReasons(input, r) == {} <==> RoundSuffices(input.candidateSha, r)
  {
    var sha, e := input.candidateSha, r.evidence;
    ThreeNotMissing(input.profile, e, sha);
    NoGateFails(e);
    MatrixClean(e.matrix);
    var a, b := If(!r.valid, RoundsInvalid), If(r.candidateSha != sha, EvidenceShaMismatch);
    var c, d := MissingOrMismatched(Required(input.profile, e), sha), GateReasons(HardGates(e));
    var f, g := MatrixReasons(e.matrix), If(e.rtc.Some? && !HasData(e.rtc.value.summary), RtcDataMissing);
    EmptyUnion(a, b);
    EmptyUnion(c, d);
    EmptyUnion(c + d, f);
    EmptyUnion(c + d + f, g);
    EmptyUnion(a + b, c + d + f + g);
    assert RoundReasons(input, r) == a + b + (c + d + f + g);
  }

  /** Under the CI profile, and any other but final, one round that shows three blocks is enough. */
  lemma OtherProfilesNeedLess(input: Input)
    requires !input.profile.Final?
    ensures Reasons(input) == {} <==>
            && !input.gitHubActions && input.rounds != []
            && (forall i :: 0 <= i < |input.rounds| ==> RoundSuffices(input.candidateSha, input.rounds[i]))
  {
    var parts := ByRound(input);
    EmptyParts(parts);
    forall i | 0 <= i < |input.rounds| ensures parts[i] == {} <==> RoundSuffices(input.candidateSha, input.rounds[i]) {
      NothingInOtherRound(input, input.rounds[i]);
    }
    var a, b, c := RoundCount(input), Union(parts), If(input.gitHubActions, GitHubActions);
    EmptyUnion(a, b);
    EmptyUnion(a + b, c);
    assert RoundsInvalid in a <==> a != {};
    assert GitHubActions in c <==> c != {};
  }

  // ----- how much of the baseline has passed

  function PassedBaseline(entries: seq<Entry>): nat {
    if entries == [] then 0
    else
      PassedBaseline(entries[..|entries| - 1])
      + (if entries[|entries| - 1].baseline && Passes(entries[|entries| - 1].status) then 1 else 0)
  }

  /** The baseline entries that were excused. */
  ghost function Excused(entries: seq<Entry>): set<string> {
    set e | e in entries && e.baseline && !Passes(e.status) :: e.id
  }

  lemma {:induction false} BaselineSplits(entries: seq<Entry>)
    requires DistinctIds(entries)
    ensures BaselineCount(entries) == PassedBaseline(entries) + |Excused(entries)|
  {
    if entries == [] {
      assert Excused(entries) == {};
    } else {
      var front, e := entries[..|entries| - 1], entries[|entries| - 1];
      assert entries == front + [e];
      BaselineSplits(front);
      if e.baseline && !Passes(e.status) {
        assert e.id !in Excused(front);
        assert Excused(entries) == Excused(front) + {e.id};
      } else {
        assert Excused(entries) == Excused(front);
      }
    }
  }

  lemma FiveExcusable()
    ensures |AllowedNA| <= 5
  {}

  /** An accepted matrix has at least 96 baseline entries that passed. */
  lemma BaselinePasses(matrix: Block)
    requires Complete(matrix.entries) && GateOk(matrix, true)
    ensures 96 <= PassedBaseline(matrix.entries)
  {
    BaselineSplits(matrix.entries);
    forall id | id in Excused(matrix.entries) ensures id in AllowedNA {
      var e :| e in matrix.entries && e.baseline && !Passes(e.status) && e.id == id;
      assert EntryOk(e, true);
    }
    SubsetSize(Excused(matrix.entries), AllowedNA);
    FiveExcusable();
  }

  ghost predicate MatrixPassed(matrix: Option<Block>) {
    && matrix.Some? && |matrix.value.entries| == 104 && DistinctIds(matrix.value.entries)
    && 96 <= PassedBaseline(matrix.value.entries)
  }

  /** What acceptance shows of the matrix: in every round 104 entries with distinct ids, and at least 96
      baseline entries that passed. */
  lemma AcceptedMatricesPassed(input: Input)
    requires Accepted(input)
    ensures forall r :: r in input.rounds ==> MatrixPassed(r.evidence.matrix)
  {
    forall r | r in input.rounds ensures MatrixPassed(r.evidence.matrix) {
      assert RoundAccepted(input.candidateSha, r);
      BaselinePasses(r.evidence.matrix.value);
    }
  }

  // ----- what each code means

  ghost predicate Off(b: Option<Block>, sha: string) { b.Some? && b.value.candidateSha != sha }

  /** The word in any mixture of cases. */
  ghost predicate Reads(s: string, word: string) { |s| == |word| && forall i :: 0 <= i < |s| ==> Lower(s[i]) == word[i] }

  ghost predicate ReadsPass(s: string) { Reads(s, "pass") || Reads(s, "passed") }

  /** An entry that has to pass, and does neither that nor, in the matrix, count as excused. */
  ghost predicate EntryFails(e: Entry, isMatrix: bool) {
    && (e.baseline || !isMatrix) && !ReadsPass(e.status)
    && !(isMatrix && Reads(e.status, "n-a") && e.id in {"AC-03-F2", "AC-04-F2", "AC-05-S4", "AC-08-F2", "AC-09-F2"})
  }

  /** A stated result that is no pass, nothing stated at all outside the matrix, or a failing entry. */
  ghost predicate BlockFails(b: Block, isMatrix: bool) {
    || (b.result != "" && !ReadsPass(b.result))
    || (b.result == "" && |b.entries| == 0 && !isMatrix)
    || (exists i :: 0 <= i < |b.entries| && EntryFails(b.entries[i], isMatrix))
  }

  ghost predicate Fails(b: Option<Block>, isMatrix: bool) { b.Some? && BlockFails(b.value, isMatrix) }

  lemma WordsRead(s: string)
    ensures Passes(s) <==> ReadsPass(s)
    ensures Normalize(s) == "pending" <==> Reads(s, "pending")
    ensures Normalize(s) == "n-a" <==> Reads(s, "n-a")
  {
    LowerReads(s, "pass");
    LowerReads(s, "passed");
    LowerReads(s, "pending");
    LowerReads(s, "n-a");
    assert "pass"[0] != "fail"[0] && |"pending"| != |"fail"| && |"n-a"| != |"fail"|;
  }

  lemma LowerReads(s: string, word: string)
    ensures ToLower(s) == word <==> Reads(s, word)
  {
    var lower := ToLower(s);
    if lower == word {
      forall i | 0 <= i < |s| ensures Lower(s[i]) == word[i] { assert lower[i] == word[i]; }
    }
    if Reads(s, word) { assert lower == word; }
  }

  lemma BlockFailsOrIsOk(b: Block, isMatrix: bool)
    ensures GateOk(b, isMatrix) <==> !BlockFails(b, isMatrix)
  {
    WordsRead(b.result);
    forall i | 0 <= i < |b.entries| ensures EntryOk(b.entries[i], isMatrix) <==> !EntryFails(b.entries[i], isMatrix) {
      WordsRead(b.entries[i].status);
    }
    if forall e :: e in b.entries ==> EntryOk(e, isMatrix) {
      assert forall i :: 0 <= i < |b.entries| ==> EntryOk(b.entries[i], isMatrix);
    }
  }

  /** A required block is missing: three of them under any profile, all six under the final one. */
  ghost predicate Lacks(profile: Profile, e: Evidence) {
    || e.matrix.None? || e.pgRange.None? || e.rtc.None?
    || (profile.Final? && (e.package.None? || e.checkFull.None? || e.linuxNative.None?))
  }

  ghost predicate Strays(profile: Profile, e: Evidence, sha: string) {
    || Off(e.matrix, sha) || Off(e.pgRange, sha) || Off(e.rtc, sha)
    || (profile.Final? && (Off(e.package, sha) || Off(e.checkFull, sha) || Off(e.linuxNative, sha)))
  }

  ghost predicate AnyGateFails(e: Evidence) {
    || Fails(e.package, false) || Fails(e.checkFull, false) || Fails(e.matrix, true)
    || Fails(e.pgRange, false) || Fails(e.linuxNative, false)
  }

  ghost function Baselines(entries: seq<Entry>): set<int> { set i | 0 <= i < |entries| && entries[i].baseline }

  /** Not 104 entries with ids of their own, 101 of them baseline. */
  ghost predicate EntriesIncomplete(entries: seq<Entry>) {
    || |entries| != 104 || |Baselines(entries)| != 101
    || (exists i :: 0 <= i < |entries| && |entries[i].id| == 0)
    || (exists i, j :: 0 <= i < j < |entries| && entries[i].id == entries[j].id)
  }

  ghost predicate MatrixIncomplete(e: Evidence) { e.matrix.Some? && EntriesIncomplete(e.matrix.value.entries) }

  /** Pending where that is not allowed, or excused where that is not. */
  ghost predicate EntryUnexpected(e: Entry) {
    || (Reads(e.status, "pending") && (e.baseline || e.id !in {"AC-03-F6", "AC-08-S8"}))
    || (Reads(e.status, "n-a") && e.id !in {"AC-03-F2", "AC-04-F2", "AC-05-S4", "AC-08-F2", "AC-09-F2"})
  }

  ghost predicate MatrixUnexpected(e: Evidence) {
    e.matrix.Some? &&
    (e.matrix.value.exceptions > 0 || exists i :: 0 <= i < |e.matrix.value.entries| && EntryUnexpected(e.matrix.value.entries[i]))
  }

  lemma {:induction false} BaselinesCounted(entries: seq<Entry>)
    ensures |Baselines(entries)| == BaselineCount(entries)
  {
    if entries != [] {
      var n := |entries| - 1;
      BaselinesCounted(entries[..n]);
      assert Baselines(entries) == Baselines(entries[..n]) + if entries[n].baseline then {n} else {};
    }
  }

  lemma IncompleteOrComplete(entries: seq<Entry>)
    ensures Complete(entries) <==> !EntriesIncomplete(entries)
  {
    BaselinesCounted(entries);
    if forall e :: e in entries ==> e.id != "" {
      assert forall i :: 0 <= i < |entries| ==> entries[i] in entries && entries[i].id != "";
    }
  }

  lemma UnexpectedOrOk(e: Entry)
    ensures StateOk(e) <==> !EntryUnexpected(e)
  {
    WordsRead(e.status);
  }

  /** No review, or one without operator, time, result, screenshots or listed risks. */
  predicate ReviewLacking(review: Option<ManualReview>) {
    review.None? ||
    var r := review.value;
    Blank(r.operator) || r.at.Zero? || |r.result| == 0 || r.screenshots == 0 || !r.risksListed
  }

  /** The final profile's rounds: not two in sequence, one without environment or duration, or overlapping. */
  ghost predicate RoundsWrong(rounds: seq<Round>) {
    || |rounds| != 2 || rounds[0].sequence != 1 || rounds[1].sequence != 2
    || RoundWrong(rounds[0]) || RoundWrong(rounds[1])
    || rounds[1].startedAt.ns < rounds[0].finishedAt.ns
  }

  ghost predicate RoundWrong(r: Round) {
    !HasData(r.environment) || r.startedAt.Zero? || r.finishedAt.Zero? || r.finishedAt.ns <= r.startedAt.ns
  }

  lemma RoundsWrongOrOk(rounds: seq<Round>)
    ensures RoundsOk(rounds) <==> !RoundsWrong(rounds)
  {
    if |rounds| == 2 {
      assert rounds[0] in rounds && rounds[1] in rounds;
      assert forall r :: r in rounds ==> r == rounds[0] || r == rounds[1];
    }
  }

  /** What there is to find in a round. */
  datatype Marks = Marks(
    invalid: bool, otherSha: bool, lacks: bool, strays: bool, gateFails: bool,
    incomplete: bool, unexpected: bool, noRtcData: bool, reviewLacking: bool, reviewFails: bool)

  ghost function MarksOf(input: Input, r: Round): Marks {
    var e, final := r.evidence, input.profile.Final?;
    Marks(!r.valid, r.candidateSha != input.candidateSha, Lacks(input.profile, e), Strays(input.profile, e, input.candidateSha),
          AnyGateFails(e), MatrixIncomplete(e), MatrixUnexpected(e), e.rtc.Some? && !HasData(e.rtc.value.summary),
          final && ReviewLacking(r.manualReview),
          final && !ReviewLacking(r.manualReview) && !ReadsPass(r.manualReview.value.result))
  }

  /** Which codes the marks of a round bring up. */
  predicate Brings(m: Marks, code: Reason) {
    match code
    case EvidenceMissing => m.lacks || m.incomplete
    case EvidenceShaMismatch => m.otherSha || m.strays
    case HardGateFailed => m.gateFails
    case UnexpectedMatrixState => m.unexpected
    case RoundsInvalid => m.invalid
    case RtcDataMissing => m.noRtcData
    case ManualResultMissing => m.reviewLacking
    case ManualGateFailed => m.reviewFails
    case GitHubActions => false
  }

  ghost function EvidenceCodes(m: Marks): set<Reason> {
    If(m.lacks, EvidenceMissing) + If(m.strays, EvidenceShaMismatch) + If(m.gateFails, HardGateFailed)
    + (If(m.incomplete, EvidenceMissing) + If(m.unexpected, UnexpectedMatrixState))
    + If(m.noRtcData, RtcDataMissing)
  }

  ghost function OtherCodes(m: Marks): set<Reason> {
    If(m.invalid, RoundsInvalid) + If(m.otherSha, EvidenceShaMismatch)
    + (If(m.reviewLacking, ManualResultMissing) + If(m.reviewFails, ManualGateFailed))
  }

  lemma InIf(c: bool, r: Reason, code: Reason)
    ensures code in If(c, r) <==> c && code == r
  {}

  lemma EvidenceBrings(m: Marks, code: Reason)
    ensures code in EvidenceCodes(m) <==>
            match code
            case EvidenceMissing => m.lacks || m.incomplete
            case EvidenceShaMismatch => m.strays
            case HardGateFailed => m.gateFails
            case UnexpectedMatrixState => m.unexpected
            case RtcDataMissing => m.noRtcData
            case _ => false
  {
    InIf(m.lacks, EvidenceMissing, code);
    InIf(m.strays, EvidenceShaMismatch, code);
    InIf(m.gateFails, HardGateFailed, code);
    InIf(m.incomplete, EvidenceMissing, code);
    InIf(m.unexpected, UnexpectedMatrixState, code);
    InIf(m.noRtcData, RtcDataMissing, code);
  }

  lemma OtherBrings(m: Marks, code: Reason)
    ensures code in OtherCodes(m) <==>
            match code
            case EvidenceShaMismatch => m.otherSha
            case RoundsInvalid => m.invalid
            case ManualResultMissing => m.reviewLacking
            case ManualGateFailed => m.reviewFails
            case _ => false
  {
    InIf(m.invalid, RoundsInvalid, code);
    InIf(m.otherSha, EvidenceShaMismatch, code);
    InIf(m.reviewLacking, ManualResultMissing, code);
    InIf(m.reviewFails, ManualGateFailed, code);
  }

  lemma BlocksShow(profile: Profile, e: Evidence, sha: string)
    ensures MissingOrMismatched(Required(profile, e), sha)
            == If(Lacks(profile, e), EvidenceMissing) + If(Strays(profile, e, sha), EvidenceShaMismatch)
  {
    var required := Required(profile, e);
    if profile.Final? {
      assert required[0] == e.package && required[1] == e.checkFull && required[2] == e.matrix;
      assert required[3] == e.pgRange && required[4] == e.rtc && required[5] == e.linuxNative;
    } else {
      assert required[0] == e.matrix && required[1] == e.pgRange && required[2] == e.rtc;
    }
  }

  lemma GatesShow(e: Evidence)
    ensures GateReasons(HardGates(e)) == If(AnyGateFails(e), HardGateFailed)
  {
    var gates := HardGates(e);
    assert gates[0] == (e.package, false) && gates[1] == (e.checkFull, false) && gates[2] == (e.matrix, true);
    assert gates[3] == (e.pgRange, false) && gates[4] == (e.linuxNative, false);
    forall g | g in gates && g.0.Some? ensures GateOk(g.0.value, g.1) <==> !BlockFails(g.0.value, g.1) {
      BlockFailsOrIsOk(g.0.value, g.1);
    }
  }

  lemma MatrixShows(e: Evidence)
    ensures MatrixReasons(e.matrix)
            == If(MatrixIncomplete(e), EvidenceMissing) + If(MatrixUnexpected(e), UnexpectedMatrixState)
  {
    if e.matrix.Some? {
      var entries := e.matrix.value.entries;
      IncompleteOrComplete(entries);
      forall x | x in entries ensures StateOk(x) <==> !EntryUnexpected(x) { UnexpectedOrOk(x); }
      if x :| x in entries && !StateOk(x) {
        var i :| 0 <= i < |entries| && entries[i] == x;
        assert EntryUnexpected(entries[i]);
      }
    }
  }

  lemma ReviewShows(review: Option<ManualReview>)
    ensures ReviewReasons(review)
            == If(ReviewLacking(review), ManualResultMissing)
               + If(!ReviewLacking(review) && !ReadsPass(review.value.result), ManualGateFailed)
  {
    if review.Some? { WordsRead(review.value.result); }
  }

  lemma EvidenceMarks(input: Input, r: Round)
    ensures EvidenceReasons(input.profile, input.candidateSha, r.evidence) == EvidenceCodes(MarksOf(input, r))
  {
    BlocksShow(input.profile, r.evidence, input.candidateSha);
    GatesShow(r.evidence);
    MatrixShows(r.evidence);
  }

  lemma RoundBrings(input: Input, r: Round, code: Reason, m: Marks)
    requires m == MarksOf(input, r)
    ensures code in RoundReasons(input, r) <==> Brings(m, code)
  {
    EvidenceMarks(input, r);
    ReviewShows(r.manualReview);
    EvidenceBrings(m, code);
    OtherBrings(m, code);
    assert code in RoundReasons(input, r) <==> code in EvidenceCodes(m) || code in OtherCodes(m);
  }

  lemma AnyPart(rounds: seq<Round>, parts: seq<set<Reason>>, brings: Round -> bool, code: Reason)
    requires |parts| == |rounds| && forall i :: 0 <= i < |rounds| ==> (code in parts[i] <==> brings(rounds[i]))
    ensures code in Union(parts) <==> exists r :: r in rounds && brings(r)
  {
    UnionMembers(parts, code);
    if r :| r in rounds && brings(r) {
      var i :| 0 <= i < |rounds| && rounds[i] == r;
      assert code in parts[i];
    }
  }

  lemma RoundsBring(input: Input, code: Reason)
    ensures code in Union(ByRound(input)) <==> exists r :: r in input.rounds && Brings(MarksOf(input, r), code)
  {
    var parts := ByRound(input);
    forall i | 0 <= i < |input.rounds| ensures code in parts[i] <==> Brings(MarksOf(input, input.rounds[i]), code) {
      RoundBrings(input, input.rounds[i], code, MarksOf(input, input.rounds[i]));
    }
    AnyPart(input.rounds, parts, r => Brings(MarksOf(input, r), code), code);
  }

  lemma InReasons(input: Input, code: Reason)
    ensures code in Reasons(input) <==>
            || code in Union(ByRound(input))
            || (code.RoundsInvalid? && if input.profile.Final? then RoundsWrong(input.rounds) else |input.rounds| == 0)
            || (code.GitHubActions? && input.gitHubActions)
  {
    RoundsWrongOrOk(input.rounds);
  }

  /** Each code is reported exactly when the input shows it: a round that brings it up, the number, order
      and times of the rounds, or running under GitHub Actions. */
  lemma CodesMean(input: Input, code: Reason)
    ensures code in Reasons(input) <==>
            || (exists r :: r in input.rounds && Brings(MarksOf(input, r), code))
            || (code.RoundsInvalid? && if input.profile.Final? then RoundsWrong(input.rounds) else |input.rounds| == 0)
            || (code.GitHubActions? && input.gitHubActions)
  {
    InReasons(input, code);
    RoundsBring(input, code);
  }

  // ----- the profiles compared

  /** Whatever stops a CI report also stops a final one. */
  lemma FinalIsStricter(input: Input)
    requires input.profile.CI?
    ensures Reasons(input) <= Reasons(input.(profile := Final))
  {
    var final := input.(profile := Final);
    forall r | r in Union(ByRound(input)) ensures r in Union(ByRound(final)) {
      UnionMembers(ByRound(input), r);
      UnionMembers(ByRound(final), r);
      var i :| 0 <= i < |ByRound(input)| && r in ByRound(input)[i];
      RoundIsStricter(input, final, input.rounds[i]);
      assert r in ByRound(final)[i];
    }
  }

  lemma RoundIsStricter(input: Input, final: Input, r: Round)
    requires input.profile.CI? && final == input.(profile := Final)
    ensures RoundReasons(input, r) <= RoundReasons(final, r)
  {
    EvidenceIsStricter(input.candidateSha, r.evidence);
  }

  lemma EvidenceIsStricter(sha: string, e: Evidence)
    ensures EvidenceReasons(CI, sha, e) <= EvidenceReasons(Final, sha, e)
  {
    MoreRequired(Required(CI, e), Required(Final, e), sha);
  }

  lemma MoreRequired(some: seq<Option<Block>>, all: seq<Option<Block>>, sha: string)
    requires Elems(some) <= Elems(all)
    ensures MissingOrMismatched(some, sha) <= MissingOrMismatched(all, sha)
  {
    forall b | b in some ensures b in all { assert b in Elems(some); }
  }
}
