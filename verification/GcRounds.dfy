/**
 Removing replicas that are no longer in the leader's member list: a stream must be reported
 missing in two rounds running.
 */
module GcRounds {
  import opened Common

  type LsId = int

  /** What a collector process goes through. */
  datatype Event =
    | Report(ls: LsId)        // a leader's answer says this replica is not a valid member
    | NextRound               // the collector's sequence number goes up
    | Recreate(ls: LsId)      // the stream is created anew, with a new handler

  function Round(h: seq<Event>): nat {
    if h == [] then 1
    else if h[|h| - 1].NextRound? then Round(h[..|h| - 1]) + 1
    else Round(h[..|h| - 1])
  }

  /** The handler's `gc_seq_invalid_member_` after this history. */
  function StoredSeq(h: seq<Event>, ls: LsId): int {
    if h == [] then -1
    else
      var front, last := h[..|h| - 1], h[|h| - 1];
      if last == Report(ls) then Round(front)
      else if last == Recreate(ls) then -1
      else StoredSeq(front, ls)
  }

  /** Whether a report of the stream, coming after history h, makes it a removal candidate. */
  predicate MakesCandidate(h: seq<Event>, ls: LsId) {
    Round(h) == StoredSeq(h, ls) + 1
  }

  /** The report at k is the last word about the stream in h. */
  predicate LastWord(h: seq<Event>, ls: LsId, k: nat) {
    && k < |h| && h[k] == Report(ls)
    && forall m :: k < m < |h| ==> h[m] != Report(ls) && h[m] != Recreate(ls)
  }

  lemma {:induction false} RoundMonotone(h: seq<Event>, i: nat)
    requires i <= |h|
    ensures 1 <= Round(h[..i]) <= Round(h)
  {
    if i == |h| {
      assert h[..i] == h;
      RoundPositive(h);
    } else {
      RoundMonotone(h[..|h| - 1], i);
      assert h[..|h| - 1][..i] == h[..i];
    }
  }

  lemma {:induction false} RoundPositive(h: seq<Event>)
    ensures 1 <= Round(h)
  {
    if h != [] { RoundPositive(h[..|h| - 1]); }
  }

  /** The stored number is the round of the last report since the handler exists, or -1. */
  lemma {:induction false} StoredSeqIsLastWord(h: seq<Event>, ls: LsId)
    ensures StoredSeq(h, ls) == -1 || exists k: nat :: LastWord(h, ls, k)
    ensures forall k: nat :: LastWord(h, ls, k) ==> StoredSeq(h, ls) == Round(h[..k])
  {
    if h != [] {
      var front, last := h[..|h| - 1], h[|h| - 1];
      StoredSeqIsLastWord(front, ls);
      if last == Report(ls) {
        assert LastWord(h, ls, |h| - 1);
      } else if last != Recreate(ls) {
        if k: nat :| LastWord(front, ls, k) {
          assert LastWord(h, ls, k);
        }
      }
      forall k: nat | LastWord(h, ls, k) && k < |front| ensures StoredSeq(h, ls) == Round(h[..k]) {
        assert LastWord(front, ls, k);
        assert front[..k] == h[..k];
      }
    }
  }

  /**
   A report in round r makes the stream a candidate exactly when the last report of it, since its
   handler exists, came in round r - 1: it was reported in both rounds, and
   not before in this one. Skipped rounds, repeated reports and recreated
   streams are all covered.
   */
  lemma CandidateIff(h: seq<Event>, ls: LsId)
    ensures MakesCandidate(h, ls) <==> exists k: nat :: LastWord(h, ls, k) && Round(h[..k]) + 1 == Round(h)
  {
    StoredSeqIsLastWord(h, ls);
    RoundPositive(h);
  }

  /** A stream becomes a candidate at most once per round. */
  lemma CandidateOncePerRound(h: seq<Event>, ls: LsId, i: nat, j: nat)
    requires i < j < |h| && h[i] == Report(ls) && h[j] == Report(ls)
    requires MakesCandidate(h[..i], ls) && MakesCandidate(h[..j], ls)
    ensures Round(h[..i]) < Round(h[..j])
  {
    CandidateIff(h[..j], ls);
    var k: nat :| LastWord(h[..j], ls, k) && Round(h[..j][..k]) + 1 == Round(h[..j]);
    assert h[..j][..k] == h[..k];
    assert i <= k by {
      assert h[..j][i] == Report(ls);
    }
    RoundMonotone(h[..k], i);
    assert h[..k][..i] == h[..i];
  }

  // ---------- what one pass over a leader's answers does ----------

  /** One stream's part of a leader's answer, with what the local server knows about the stream. */
  datatype Answer = Answer(
    ls: LsId,
    remoteOk: bool,             // the leader could answer for this stream
    validMember: bool,
    recreated: bool,            // the stream was created anew since it was last looked at
    present: bool,              // the stream exists here
    allowGc: Option<bool>)      // whether the migration status allows removal, if it could be read

  predicate Reports(a: Answer) {
    a.remoteOk && a.present && !a.validMember
  }

  /** The history in which an answer is judged, when h came before it. */
  function Found(h: seq<Event>, a: Answer): seq<Event> {
    if a.recreated then h + [Recreate(a.ls)] else h
  }

  function Taken(h: seq<Event>, a: Answer): seq<Event> {
    if Reports(a) then Found(h, a) + [Report(a.ls)] else Found(h, a)
  }

  function After(h: seq<Event>, answers: seq<Answer>): seq<Event> {
    if answers == [] then h
    else Taken(After(h, answers[..|answers| - 1]), answers[|answers| - 1])
  }

  predicate Chosen(h: seq<Event>, a: Answer) {
    Reports(a) && MakesCandidate(Found(h, a), a.ls) && a.allowGc == Some(true)
  }

  lemma Append(h: seq<Event>, e: Event)
    ensures (h + [e])[..|h|] == h
    ensures e.NextRound? || Round(h + [e]) == Round(h)
    ensures forall ls :: StoredSeq(h + [e], ls) ==
              if e == Report(ls) then Round(h) else if e == Recreate(ls) then -1 else StoredSeq(h, ls)
  {
    assert (h + [e])[..|h|] == h;
  }

  lemma TakenGrows(h: seq<Event>, a: Answer)
    ensures h <= Found(h, a) <= Taken(h, a)
    ensures Round(Taken(h, a)) == Round(Found(h, a)) == Round(h)
  {
    Append(h, Recreate(a.ls));
    Append(Found(h, a), Report(a.ls));
  }

  /** The migration status would decide about a candidate, but could not be read. */
  predicate Unreadable(h: seq<Event>, a: Answer) {
    Reports(a) && MakesCandidate(Found(h, a), a.ls) && a.allowGc.None?
  }

  /** The candidates that a list of answers yields, each judged by the history before it. */
  function Candidates(h: seq<Event>, answers: seq<Answer>): seq<LsId> {
    if answers == [] then []
    else
      var front, last := answers[..|answers| - 1], answers[|answers| - 1];
      Candidates(h, front) + if Chosen(After(h, front), last) then [last.ls] else []
  }

  lemma {:induction false} AfterGrows(h: seq<Event>, answers: seq<Answer>)
    ensures h <= After(h, answers)
    ensures Round(After(h, answers)) == Round(h)
  {
    if answers != [] {
      AfterGrows(h, answers[..|answers| - 1]);
      TakenGrows(After(h, answers[..|answers| - 1]), answers[|answers| - 1]);
    }
  }

  lemma {:induction false} AfterConcat(h: seq<Event>, a: seq<Answer>, b: seq<Answer>)
    ensures After(h, a + b) == After(After(h, a), b)
    ensures Candidates(h, a + b) == Candidates(h, a) + Candidates(After(h, a), b)
  {
    if b == [] {
      assert a + b == a;
    } else {
      AfterConcat(h, a, b[..|b| - 1]);
      assert (a + b)[..|a + b| - 1] == a + b[..|b| - 1];
    }
  }

  /** Every candidate of a round was reported in the round before and again in this one. */
  lemma {:induction false} CandidatesReportedTwice(h: seq<Event>, answers: seq<Answer>, ls: LsId)
    requires ls in Candidates(h, answers)
    ensures ReportedInBoth(After(h, answers), ls, Round(h), |h|)
  {
    var front, last := answers[..|answers| - 1], answers[|answers| - 1];
    AfterGrows(h, front);
    TakenGrows(After(h, front), last);
    if ls in Candidates(h, front) {
      CandidatesReportedTwice(h, front, ls);
      ReportedInBothGrows(After(h, front), After(h, answers), ls, Round(h), |h|);
    } else {
      var mid, end := Found(After(h, front), last), After(h, answers);
      CandidateIff(mid, ls);
      var k: nat :| LastWord(mid, ls, k) && Round(mid[..k]) + 1 == Round(mid);
      assert end[..k] == mid[..k] && end[..|mid|] == mid;
      assert ReportedAt(end, ls, k) && ReportedAt(end, ls, |mid|);
    }
  }

  ghost predicate ReportedAt(h: seq<Event>, ls: LsId, i: nat) {
    i < |h| && h[i] == Report(ls)
  }

  ghost predicate ReportedSince(h: seq<Event>, ls: LsId, since: nat) {
    exists i: nat :: since <= i && ReportedAt(h, ls, i)
  }

  /** The stream was reported in the round before `round`, and in `round` itself after `since` events. */
  ghost predicate ReportedInBoth(h: seq<Event>, ls: LsId, round: nat, since: nat) {
    exists i: nat, j: nat ::
      && ReportedAt(h, ls, i) && ReportedAt(h, ls, j) && since <= j
      && Round(h[..i]) + 1 == Round(h[..j]) == round
  }

  lemma ReportedInBothGrows(h: seq<Event>, more: seq<Event>, ls: LsId, round: nat, since: nat)
    requires h <= more && ReportedInBoth(h, ls, round, since)
    ensures ReportedInBoth(more, ls, round, since)
  {
    var i: nat, j: nat :| ReportedAt(h, ls, i) && ReportedAt(h, ls, j) && since <= j
                          && Round(h[..i]) + 1 == Round(h[..j]) == round;
    assert more[..i] == h[..i] && more[..j] == h[..j];
    assert ReportedAt(more, ls, i) && ReportedAt(more, ls, j);
  }

  /** What a candidate's handler remembers cannot make it a candidate again in this round. */
  lemma {:induction false} CandidateSeen(h: seq<Event>, answers: seq<Answer>, ls: LsId)
    requires ls in Candidates(h, answers)
    ensures StoredSeq(After(h, answers), ls) in {-1, Round(h) as int}
  {
    var front, last := answers[..|answers| - 1], answers[|answers| - 1];
    AfterGrows(h, front);
    if ls in Candidates(h, front) {
      CandidateSeen(h, front, ls);
    }
    Append(After(h, front), Recreate(last.ls));
    Append(Found(After(h, front), last), Report(last.ls));
  }

  /** However often a stream is reported in one round, it is a candidate at most once. */
  lemma {:induction false} CandidatesDistinct(h: seq<Event>, answers: seq<Answer>)
    ensures Distinct(Candidates(h, answers))
  {
    if answers != [] {
      var front, last := answers[..|answers| - 1], answers[|answers| - 1];
      CandidatesDistinct(h, front);
      if last.ls in Candidates(h, front) {
        CandidateSeen(h, front, last.ls);
        AfterGrows(h, front);
        RoundPositive(h);
        Append(After(h, front), Recreate(last.ls));
      }
    }
  }

  ghost predicate Distinct(s: seq<LsId>) {
    forall i, j :: 0 <= i < j < |s| ==> s[i] != s[j]
  }

  // ---------- the collector ----------

  /** A leader's response: parallel arrays, of which the last may be empty. */
  datatype Response = Response(
    lsArray: seq<LsId>,
    candidatesStatus: seq<bool>,
    retOk: seq<bool>,
    gcStatCount: nat)

  /** What this server finds for one stream of a response. */
  datatype Local = Local(recreated: bool, present: bool, allowGc: Option<bool>)

  predicate CountsMatch(r: Response) {
    && |r.lsArray| == |r.candidatesStatus| == |r.retOk|
    && (r.gcStatCount > 0 ==> r.gcStatCount == |r.lsArray|)
  }

  predicate ComesFrom(a: Answer, r: Response, k: nat)
    requires CountsMatch(r) && k < |r.lsArray|
  {
    a == AnswerAt(r, Local(a.recreated, a.present, a.allowGc), k)
  }

  function AnswerAt(r: Response, local: Local, k: nat): Answer
    requires CountsMatch(r) && k < |r.lsArray|
  {
    Answer(r.lsArray[k], r.retOk[k], r.candidatesStatus[k], local.recreated, local.present, local.allowGc)
  }

  /** The answers are those of the first streams of the response. */
  ghost predicate AnswersOf(handled: seq<Answer>, r: Response)
    requires CountsMatch(r)
  {
    |handled| <= |r.lsArray| && forall k: nat :: k < |handled| ==> ComesFrom(handled[k], r, k)
  }

  lemma OneMoreAnswer(h: seq<Event>, r: Response, candidates: seq<LsId>, handled: seq<Answer>, a: Answer)
    requires CountsMatch(r) && AnswersOf(handled, r) && |handled| < |r.lsArray| && ComesFrom(a, r, |handled|)
    ensures AnswersOf(handled + [a], r)
    ensures After(h, handled + [a]) == Taken(After(h, handled), a)
    ensures candidates + Candidates(h, handled + [a])
            == candidates + Candidates(h, handled) + if Chosen(After(h, handled), a) then [a.ls] else []
    ensures StoppedAtLast(h, handled + [a]) <==> Unreadable(After(h, handled), a)
  {
    assert (handled + [a])[..|handled|] == handled;
  }

  /** The last answer handled is the one that could not be decided. */
  ghost predicate StoppedAtLast(h: seq<Event>, handled: seq<Answer>) {
    handled != [] && Unreadable(After(h, handled[..|handled| - 1]), handled[|handled| - 1])
  }

  /** The place in a leader's response that a report comes from. */
  datatype Source = Source(response: Response, k: nat)

  /** The leader could answer for the stream, and said that this replica is not a valid member. */
  ghost predicate Backs(s: Option<Source>, ls: LsId) {
    && s.Some?
    && s.value.k < |s.value.response.lsArray| && s.value.response.lsArray[s.value.k] == ls
    && s.value.k < |s.value.response.retOk| && s.value.response.retOk[s.value.k]
    && s.value.k < |s.value.response.candidatesStatus| && !s.value.response.candidatesStatus[s.value.k]
  }

  /** Every report in the history comes from a response that backs it. */
  ghost predicate AllBacked(h: seq<Event>, behind: seq<Option<Source>>) {
    |h| == |behind| && forall i :: 0 <= i < |h| && h[i].Report? ==> Backs(behind[i], h[i].ls)
  }

  /** What stands behind the events of one answer. */
  function SourcesOf(a: Answer, s: Source): seq<Option<Source>> {
    (if a.recreated then [None] else []) + if Reports(a) then [Some(s)] else []
  }

  lemma TakenBacked(h: seq<Event>, behind: seq<Option<Source>>, a: Answer, s: Source)
    requires AllBacked(h, behind) && (Reports(a) ==> Backs(Some(s), a.ls))
    ensures AllBacked(Taken(h, a), behind + SourcesOf(a, s))
  {
  }

  /** The events from `since` on come from these responses. */
  ghost predicate ComeFrom(behind: seq<Option<Source>>, since: nat, responses: seq<Option<Response>>) {
    forall i :: since <= i < |behind| && behind[i].Some? ==> Some(behind[i].value.response) in responses
  }

  /**
   The stream was reported in the round before `round` and again in `round`, each time by a leader
   that could answer for it and said that this replica is not a valid member; the second answer is
   one of these responses.
   */
  ghost predicate RemovedFor(h: seq<Event>, behind: seq<Option<Source>>, ls: LsId, round: nat,
                             responses: seq<Option<Response>>) {
    exists i: nat, j: nat ::
      && ReportedAt(h, ls, i) && ReportedAt(h, ls, j)
      && Round(h[..i]) + 1 == Round(h[..j]) == round
      && i < |behind| && Backs(behind[i], ls)
      && j < |behind| && Backs(behind[j], ls) && Some(behind[j].value.response) in responses
  }

  lemma RemovedForBacked(h: seq<Event>, behind: seq<Option<Source>>, ls: LsId, round: nat, since: nat,
                         responses: seq<Option<Response>>)
    requires AllBacked(h, behind) && ComeFrom(behind, since, responses)
    requires ReportedInBoth(h, ls, round, since)
    ensures RemovedFor(h, behind, ls, round, responses)
  {
    var i: nat, j: nat :| ReportedAt(h, ls, i) && ReportedAt(h, ls, j) && since <= j
                          && Round(h[..i]) + 1 == Round(h[..j]) == round;
    assert Backs(behind[i], ls) && Backs(behind[j], ls);
  }

  lemma MadeRemovedFor(h: seq<Event>, answers: seq<Answer>, behind: seq<Option<Source>>,
                       responses: seq<Option<Response>>)
    requires AllBacked(After(h, answers), behind) && ComeFrom(behind, |h|, responses)
    ensures var g := After(h, answers) + [NextRound];
            forall ls :: ls in Candidates(h, answers) ==> RemovedFor(g, behind + [None], ls, Round(h), responses)
  {
    var g := After(h, answers) + [NextRound];
    forall ls | ls in Candidates(h, answers) ensures RemovedFor(g, behind + [None], ls, Round(h), responses) {
      CandidatesReportedTwice(h, answers, ls);
      ReportedInBothGrows(After(h, answers), g, ls, Round(h), |h|);
      RemovedForBacked(g, behind + [None], ls, Round(h), |h|, responses);
    }
  }

  /** What was taken in from one response, when h came before it. */
  ghost predicate PartOk(h: seq<Event>, r: Option<Response>, part: seq<Answer>) {
    if r.None? || !CountsMatch(r.value) then part == []
    else AnswersOf(part, r.value) && (|part| == |r.value.lsArray| || StoppedAtLast(h, part))
  }

  ghost function Flatten(parts: seq<seq<Answer>>): seq<Answer> {
    if parts == [] then [] else Flatten(parts[..|parts| - 1]) + parts[|parts| - 1]
  }

  /** Each part is what was taken in from the response at its place, after the parts before it. */
  ghost predicate PartsOk(h: seq<Event>, responses: seq<Option<Response>>, parts: seq<seq<Answer>>) {
    && |parts| <= |responses|
    && forall n :: 0 <= n < |parts| ==> PartOk(After(h, Flatten(parts[..n])), responses[n], parts[n])
  }

  lemma OneMorePart(h: seq<Event>, responses: seq<Option<Response>>, parts: seq<seq<Answer>>, part: seq<Answer>)
    requires PartsOk(h, responses, parts) && |parts| < |responses|
    requires PartOk(After(h, Flatten(parts)), responses[|parts|], part)
    ensures PartsOk(h, responses, parts + [part])
    ensures Flatten(parts + [part]) == Flatten(parts) + part
    ensures After(h, Flatten(parts + [part])) == After(After(h, Flatten(parts)), part)
    ensures Candidates(h, Flatten(parts + [part]))
            == Candidates(h, Flatten(parts)) + Candidates(After(h, Flatten(parts)), part)
  {
    var all := parts + [part];
    assert all[..|parts|] == parts;
    AfterConcat(h, Flatten(parts), part);
    forall n | 0 <= n < |all| ensures PartOk(After(h, Flatten(all[..n])), responses[n], all[n]) {
      assert n < |parts| ==> all[..n] == parts[..n];
    }
  }

  /** Every report among the answers shows in the history. */
  lemma {:induction false} AfterReports(h: seq<Event>, answers: seq<Answer>, k: nat)
    requires k < |answers| && answers[k].remoteOk && answers[k].present && !answers[k].validMember
    ensures ReportedSince(After(h, answers), answers[k].ls, |h|)
  {
    var front, last := answers[..|answers| - 1], answers[|answers| - 1];
    AfterGrows(h, front);
    TakenGrows(After(h, front), last);
    if k < |front| {
      AfterReports(h, front, k);
      var i: nat :| |h| <= i && ReportedAt(After(h, front), answers[k].ls, i);
      assert ReportedAt(After(h, answers), answers[k].ls, i);
    } else {
      assert ReportedAt(After(h, answers), last.ls, |After(h, answers)| - 1);
    }
  }

  /** The answers handled say what the response says, and every report among them shows. */
  lemma HandledShow(h: seq<Event>, r: Response, handled: seq<Answer>)
    requires CountsMatch(r) && AnswersOf(handled, r)
    ensures forall k :: 0 <= k < |handled| ==>
              && handled[k].ls == r.lsArray[k] && handled[k].remoteOk == r.retOk[k]
              && handled[k].validMember == r.candidatesStatus[k]
    ensures forall k :: 0 <= k < |handled| ==>
              (handled[k].remoteOk && handled[k].present && !handled[k].validMember ==>
                 ReportedSince(After(h, handled), handled[k].ls, |h|))
  {
    assert forall k: nat :: k < |handled| ==> ComesFrom(handled[k], r, k);
    forall k | 0 <= k < |handled|
      ensures handled[k].remoteOk && handled[k].present && !handled[k].validMember ==>
                ReportedSince(After(h, handled), handled[k].ls, |h|)
    {
      if handled[k].remoteOk && handled[k].present && !handled[k].validMember {
        AfterReports(h, handled, k);
      }
    }
  }

  lemma SourcesComeFrom(behind: seq<Option<Source>>, since: nat, a: Answer, r: Response, k: nat)
    requires ComeFrom(behind, since, [Some(r)])
    ensures ComeFrom(behind + SourcesOf(a, Source(r, k)), since, [Some(r)])
  {
    var more := behind + SourcesOf(a, Source(r, k));
    forall i | since <= i < |more| && more[i].Some? ensures Some(more[i].value.response) in [Some(r)] {
      if i < |behind| {
        assert more[i] == behind[i];
      } else {
        assert more[i] == SourcesOf(a, Source(r, k))[i - |behind|];
      }
    }
  }

  class Collector {
    var gcSeq: int
    var stored: map<LsId, int>          // each handler's gc_seq_invalid_member_
    ghost var history: seq<Event>
    ghost var behind: seq<Option<Source>>     // for each event, the answer it comes from

    constructor ()
      ensures Valid() && AllBacked(history, behind) && history == []
    {
      gcSeq := 1;
      stored := map[];
      history := [];
      behind := [];
    }

    ghost predicate Valid()
      reads this
    {
      && gcSeq == Round(history)
      && forall ls :: StoredOf(ls) == StoredSeq(history, ls)
    }

    function StoredOf(ls: LsId): int
      reads this
    {
      if ls in stored then stored[ls] else -1
    }

    method CheckInvalidMemberSeq(ls: LsId, seqNo: int) returns (code: Code, needGc: bool)
      requires Valid()
      modifies this`stored, this`history
      ensures code == if seqNo <= 0 then InvalidArgument else Success
      ensures needGc <==> code == Success && seqNo == old(StoredOf(ls)) + 1
      ensures code != Success ==> Valid() && stored == old(stored) && history == old(history)
      ensures code == Success ==> StoredOf(ls) == seqNo && history == old(history) + [Report(ls)]
      ensures forall other :: other != ls ==> StoredOf(other) == old(StoredOf(other))
      ensures seqNo == gcSeq && 0 < seqNo ==> Valid() && (needGc <==> MakesCandidate(old(history), ls))
    {
      code, needGc := Success, false;
      if seqNo <= 0 {
        code := InvalidArgument;
      } else {
        if seqNo == StoredOf(ls) + 1 {
          needGc := true;
        }
        stored := stored[ls := seqNo];
        Append(history, Report(ls));
        history := history + [Report(ls)];
      }
    }

    method RecreateLs(ls: LsId)
      requires Valid()
      modifies this`stored, this`history
      ensures Valid() && history == old(history) + [Recreate(ls)]
    {
      Append(history, Recreate(ls));
      stored := stored[ls := -1];
      history := history + [Recreate(ls)];
    }

    /**
     One stream of a response. It is reported exactly when the leader could answer for it, it exists
     here and this replica is not a valid member; it becomes a candidate exactly when its handler,
     not new, was last reported in the round before and the migration status allows removal.
     */
    method HandleAnswer(a: Answer, candidates: seq<LsId>, ghost source: Source)
      returns (code: Code, all: seq<LsId>)
      requires Valid() && AllBacked(history, behind)
      requires a.remoteOk && !a.validMember ==> Backs(Some(source), a.ls)
      modifies this`stored, this`history, this`behind
      ensures Valid() && AllBacked(history, behind)
      ensures history == Taken(old(history), a) && behind == old(behind) + SourcesOf(a, source)
      ensures history == old(history) + (if a.recreated then [Recreate(a.ls)] else [])
                         + if a.remoteOk && a.present && !a.validMember then [Report(a.ls)] else []
      ensures all == candidates + if Chosen(old(history), a) then [a.ls] else []
      ensures all == candidates
                     + if && a.remoteOk && a.present && !a.validMember && !a.recreated
                          && gcSeq == old(StoredOf(a.ls)) + 1 && a.allowGc == Some(true)
                       then [a.ls] else []
      ensures code in {Success, OtherError(3)}
      ensures code == Success <==> !Unreadable(old(history), a)
      ensures code != Success <==>
                && a.remoteOk && a.present && !a.validMember && !a.recreated
                && gcSeq == old(StoredOf(a.ls)) + 1 && a.allowGc == None
    {
      TakenBacked(history, behind, a, source);
      RoundPositive(history);
      code, all := Success, candidates;
      if a.recreated {
        RecreateLs(a.ls);
      }
      if a.remoteOk && a.present && !a.validMember {
        var tmp, needGc := CheckInvalidMemberSeq(a.ls, gcSeq);
        if needGc {
          match a.allowGc {
            case None => code := OtherError(3);
            case Some(allow) =>
              if allow {
                all := all + [a.ls];
              }
          }
        }
      }
      behind := behind + SourcesOf(a, source);
    }

    /** Take in one leader's answers; a migration status that cannot be read ends the loop. */
    method HandleResponse(r: Response, candidates: seq<LsId>)
      returns (code: Code, all: seq<LsId>, ghost handled: seq<Answer>)
      requires Valid() && AllBacked(history, behind)
      modifies this`stored, this`history, this`behind
      ensures Valid() && AllBacked(history, behind)
      ensures old(behind) <= behind && ComeFrom(behind, |old(behind)|, [Some(r)])
      ensures history == After(old(history), handled)
      ensures all == candidates + Candidates(old(history), handled)
      ensures PartOk(old(history), Some(r), handled)
      ensures code == Unexpected <==>
                || |r.lsArray| != |r.candidatesStatus| || |r.lsArray| != |r.retOk|
                || (r.gcStatCount > 0 && r.gcStatCount != |r.lsArray|)
      ensures code == Unexpected ==> handled == []
      ensures code == Success ==> |handled| == |r.lsArray|
      ensures code != Unexpected ==>
                && |handled| <= |r.lsArray|
                && forall k :: 0 <= k < |handled| ==>
                     && handled[k].ls == r.lsArray[k] && handled[k].remoteOk == r.retOk[k]
                     && handled[k].validMember == r.candidatesStatus[k]
      ensures code !in {Success, Unexpected} ==> StoppedAtLast(old(history), handled)
      ensures forall k :: 0 <= k < |handled| ==>
                (handled[k].remoteOk && handled[k].present && !handled[k].validMember ==>
                   ReportedSince(history, handled[k].ls, |old(history)|))
    {
      code, all, handled := Success, candidates, [];
      if !CountsMatch(r) {
        code := Unexpected;
        return;
      }
      var k := 0;
      while k < |r.lsArray| && code == Success
        invariant 0 <= k <= |r.lsArray| && |handled| == k
        invariant Valid() && AllBacked(history, behind)
        invariant old(behind) <= behind && ComeFrom(behind, |old(behind)|, [Some(r)])
        invariant history == After(old(history), handled)
        invariant all == candidates + Candidates(old(history), handled)
        invariant AnswersOf(handled, r) && code != Unexpected
        invariant code != Success ==> StoppedAtLast(old(history), handled)
      {
        var local: Local :| true;
        var a := AnswerAt(r, local, k);
        OneMoreAnswer(old(history), r, candidates, handled, a);
        handled := handled + [a];
        SourcesComeFrom(behind, |old(behind)|, a, r, k);
        code, all := HandleAnswer(a, all, Source(r, k));
        k := k + 1;
      }
      HandledShow(old(history), r, handled);
    }

    /** The response at n, if its query went through, after the parts before it. */
    method TakeResponse(responses: seq<Option<Response>>, n: nat, made: seq<LsId>)
      returns (all: seq<LsId>, ghost part: seq<Answer>)
      requires Valid() && AllBacked(history, behind) && n < |responses|
      modifies this`stored, this`history, this`behind
      ensures Valid() && AllBacked(history, behind)
      ensures PartOk(old(history), responses[n], part)
      ensures history == After(old(history), part)
      ensures all == made + Candidates(old(history), part)
      ensures old(behind) <= behind && ComeFrom(behind, |old(behind)|, responses)
    {
      all, part := made, [];
      if responses[n].Some? {
        var code;
        code, all, part := HandleResponse(responses[n].value, made);
        assert Some(responses[n].value) in responses;
      }
    }

    /** The answers that arrived in a round, `None` for a query that failed. */
    method TakeResponses(responses: seq<Option<Response>>) returns (made: seq<LsId>, ghost parts: seq<seq<Answer>>)
      requires Valid() && AllBacked(history, behind)
      modifies this`stored, this`history, this`behind
      ensures Valid() && AllBacked(history, behind)
      ensures |parts| == |responses| && PartsOk(old(history), responses, parts)
      ensures history == After(old(history), Flatten(parts))
      ensures made == Candidates(old(history), Flatten(parts))
      ensures old(behind) <= behind && ComeFrom(behind, |old(behind)|, responses)
    {
      made, parts := [], [];
      for n := 0 to |responses|
        invariant Valid() && AllBacked(history, behind)
        invariant |parts| == n && PartsOk(old(history), responses, parts)
        invariant old(behind) <= behind && ComeFrom(behind, |old(behind)|, responses)
        invariant history == After(old(history), Flatten(parts))
        invariant made == Candidates(old(history), Flatten(parts))
      {
        ghost var part;
        made, part := TakeResponse(responses, n, made);
        OneMorePart(old(history), responses, parts, part);
        parts := parts + [part];
      }
    }

    method EndRound()
      requires Valid() && AllBacked(history, behind)
      modifies this`gcSeq, this`history, this`behind
      ensures Valid() && AllBacked(history, behind) && gcSeq == old(gcSeq) + 1
      ensures history == old(history) + [NextRound] && behind == old(behind) + [None]
    {
      Append(history, NextRound);
      gcSeq := gcSeq + 1;
      history, behind := history + [NextRound], behind + [None];
    }

    /**
     One round. What was taken in of each response is one of `parts`; a response that stops half-way
     does not stop the round. Each candidate was reported in the round before and again in this one,
     each time by a leader that could answer for it and said that this replica is not a valid member.
     */
    method RunRound(responses: seq<Option<Response>>) returns (made: seq<LsId>, ghost parts: seq<seq<Answer>>)
      requires Valid() && AllBacked(history, behind)
      modifies this
      ensures Valid() && AllBacked(history, behind) && gcSeq == old(gcSeq) + 1
      ensures |parts| == |responses| && PartsOk(old(history), responses, parts)
      ensures history == After(old(history), Flatten(parts)) + [NextRound]
      ensures made == Candidates(old(history), Flatten(parts)) && Distinct(made)
      ensures old(behind) <= behind && ComeFrom(behind, |old(behind)|, responses)
      ensures forall ls :: ls in made ==> RemovedFor(history, behind, ls, old(gcSeq), responses)
    {
      made, parts := TakeResponses(responses);
      CandidatesDistinct(old(history), Flatten(parts));
      AfterGrows(old(history), Flatten(parts));
      MadeRemovedFor(old(history), Flatten(parts), behind, responses);
      EndRound();
    }
  }

  // ---------- batching the questions ----------

  const MAX_LS_CNT := 100

  /** A question asked about streams [lo, hi) of the list, and whether it went through. */
  datatype Batch = Batch(lo: nat, hi: nat, ok: bool)

  predicate Covers(b: Batch, i: int) {
    b.lo <= i < b.hi
  }

  ghost predicate Asked(bs: seq<Batch>, i: int) {
    exists b :: b in bs && Covers(b, i)
  }

  /** Each batch runs from where the last batch that went through ended to the next boundary. */
  ghost predicate Chained(bs: seq<Batch>, n: nat, start: nat, last: nat) {
    if bs == [] then start == 0 && last == 0
    else
      var front, b := bs[..|bs| - 1], bs[|bs| - 1];
      && b.hi == last && b.lo < b.hi <= n
      && (b.hi == n || b.hi % 100 == 0)
      && start == (if b.ok then b.hi else b.lo)
      && exists before: nat :: before < b.hi && Chained(front, n, b.lo, before)
  }

  /**
   Streams are asked about in order, at every hundredth and at the end. A batch that failed is not
   cleared, so its streams are asked about again as part of the next one. Every stream is asked
   about at least once.
   */
  method QueryInBatches(ids: seq<LsId>, outcomes: seq<bool>) returns (bs: seq<Batch>)
    ensures exists start: nat :: Chained(bs, |ids|, start, |ids|)
    ensures forall i {:trigger Asked(bs, i)} :: 0 <= i < |ids| ==> Asked(bs, i)
  {
    bs := [];
    var lo := 0;                       // the request holds ids[lo..index]
    ghost var asked := 0;
    for index := 0 to |ids|
      invariant 0 <= lo <= asked <= index
      invariant Chained(bs, |ids|, lo, asked)
      invariant index == |ids| ==> asked == index
      invariant forall i {:trigger Asked(bs, i)} :: 0 <= i < asked ==> Asked(bs, i)
    {
      if (index + 1) % MAX_LS_CNT == 0 || index == |ids| - 1 {
        var ok := |bs| < |outcomes| && outcomes[|bs|];
        ghost var was := bs;
        bs := bs + [Batch(lo, index + 1, ok)];
        assert bs[..|bs| - 1] == was;
        forall i | 0 <= i < index + 1 ensures Asked(bs, i) {
          if i < asked {
            assert Asked(was, i);
          } else {
            assert Covers(bs[|bs| - 1], i);
          }
        }
        if ok { lo := index + 1; }
        asked := index + 1;
      }
    }
  }
}
