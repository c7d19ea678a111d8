/**
 Confirmations of a flashback as an algebra: what any sequence of responses does to an
 execute operator whose lists are frozen.
 */
module FlashbackConfirm {
  import opened FlashbackTrace
  import opened FlashbackOperator

  /** Responses taken in one after the other. */
  function ConfirmAll(c: Confirmation, rs: seq<Response>): Confirmation {
    if rs == [] then c else Confirm(ConfirmAll(c, rs[..|rs| - 1]), rs[|rs| - 1])
  }

  ghost predicate Answered(rs: seq<Response>, s: Addr) {
    exists k :: 0 <= k < |rs| && rs[k].valid && rs[k].src == s
  }

  /** Exactly which servers are confirmed: a learner that is also listed as a member never is. */
  lemma {:induction false} ConfirmAllExact(c: Confirmation, rs: seq<Response>)
    requires c.hasList
    ensures var d := ConfirmAll(c, rs);
            && d.hasList && d.members == c.members && d.learners == c.learners
            && (forall s :: s in d.doneMembers <==> s in c.doneMembers || (s in c.members && Answered(rs, s)))
            && (forall s :: s in d.doneLearners <==>
                  s in c.doneLearners || (s in c.learners && s !in c.members && Answered(rs, s)))
  {
    if rs != [] {
      var front, last := rs[..|rs| - 1], rs[|rs| - 1];
      ConfirmAllExact(c, front);
      forall s ensures Answered(rs, s) <==> Answered(front, s) || (last.valid && last.src == s) {
        if Answered(front, s) {
          var k :| 0 <= k < |front| && front[k].valid && front[k].src == s;
          assert rs[k] == front[k];
        }
        if Answered(rs, s) {
          var k :| 0 <= k < |rs| && rs[k].valid && rs[k].src == s;
          if k < |front| { assert front[k] == rs[k]; }
        }
      }
    }
  }

  /** Order and repetition do not matter: only which responses arrived. */
  lemma ConfirmOrderFree(c: Confirmation, rs: seq<Response>, qs: seq<Response>)
    requires c.hasList && forall r :: r in rs <==> r in qs
    ensures ConfirmAll(c, rs) == ConfirmAll(c, qs)
  {
    ConfirmAllExact(c, rs);
    ConfirmAllExact(c, qs);
    var d, e := ConfirmAll(c, rs), ConfirmAll(c, qs);
    forall s: Addr
      ensures (s in d.doneMembers <==> s in e.doneMembers) && (s in d.doneLearners <==> s in e.doneLearners)
    {
      AnsweredTransfers(rs, qs, s);
      AnsweredTransfers(qs, rs, s);
    }
    assert d.doneMembers == e.doneMembers && d.doneLearners == e.doneLearners;
  }

  lemma AnsweredTransfers(rs: seq<Response>, qs: seq<Response>, s: Addr)
    requires forall r :: r in rs ==> r in qs
    ensures Answered(rs, s) ==> Answered(qs, s)
  {
    if Answered(rs, s) {
      var k :| 0 <= k < |rs| && rs[k].valid && rs[k].src == s;
      assert rs[k] in qs;
    }
  }

  /** Confirmed servers stay listed, and what is left to confirm never grows. */
  lemma {:induction false} ConfirmAllKeepsListed(c: Confirmation, rs: seq<Response>, k: nat)
    requires Listed(c) && k <= |rs|
    ensures Listed(ConfirmAll(c, rs))
    ensures ConfirmAll(c, rs[..k]).doneMembers <= ConfirmAll(c, rs).doneMembers
    ensures ConfirmAll(c, rs[..k]).doneLearners <= ConfirmAll(c, rs).doneLearners
  {
    if k == |rs| {
      assert rs[..k] == rs;
      if rs != [] { ConfirmAllKeepsListed(c, rs[..|rs| - 1], |rs| - 1); }
    } else {
      ConfirmAllKeepsListed(c, rs[..|rs| - 1], k);
      assert rs[..|rs| - 1][..k] == rs[..k];
    }
  }

  /**
   When the execute stage completes for a stream: every member and every learner has answered,
   and no learner is also listed as a member.
   */
  lemma CompletesIff(c: Confirmation, rs: seq<Response>)
    requires c.hasList && c.doneMembers == {} && c.doneLearners == {}
    ensures Complete(ConfirmAll(c, rs)) <==>
              && (forall s :: s in c.members ==> Answered(rs, s))
              && (forall s :: s in c.learners ==> Answered(rs, s) && s !in c.members)
  {
    ConfirmAllExact(c, rs);
  }

  /**
   Palf keeps members and learners apart. Then a stream completes exactly when every one of them
   has answered.
   */
  lemma CompletesIffAllAnswered(c: Confirmation, rs: seq<Response>)
    requires c.hasList && c.doneMembers == {} && c.doneLearners == {}
    requires forall s :: s in c.learners ==> s !in c.members
    ensures Complete(ConfirmAll(c, rs)) <==> forall s :: s in c.members + c.learners ==> Answered(rs, s)
  {
    CompletesIff(c, rs);
  }

  /** The same responses, all claiming another flashback point. */
  function Retarget(rs: seq<Response>, scn: Scn): (qs: seq<Response>)
    ensures |qs| == |rs|
    ensures forall k :: 0 <= k < |rs| ==> qs[k] == rs[k].(scn := scn)
  {
    if rs == [] then [] else Retarget(rs[..|rs| - 1], scn) + [rs[|rs| - 1].(scn := scn)]
  }

  /**
   The flashback point of a response is never compared: replies to a flashback to any other
   point, under the same stream and mode version, confirm this one just as well.
   */
  lemma {:induction false} ConfirmIgnoresFlashbackPoint(c: Confirmation, rs: seq<Response>, scn: Scn)
    ensures ConfirmAll(c, Retarget(rs, scn)) == ConfirmAll(c, rs)
  {
    if rs != [] {
      ConfirmIgnoresFlashbackPoint(c, rs[..|rs| - 1], scn);
      assert Retarget(rs, scn)[..|rs| - 1] == Retarget(rs[..|rs| - 1], scn);
    }
  }

  // ---------- completing for the right point ----------

  function Keep(rs: seq<Response>, p: Response -> bool): seq<Response> {
    if rs == [] then []
    else
      var front, last := rs[..|rs| - 1], rs[|rs| - 1];
      Keep(front, p) + if p(last) then [last] else []
  }

  lemma {:induction false} KeepExact(rs: seq<Response>, p: Response -> bool)
    ensures forall r :: r in Keep(rs, p) <==> r in rs && p(r)
  {
    if rs != [] {
      var front, last := rs[..|rs| - 1], rs[|rs| - 1];
      KeepExact(front, p);
      assert forall r :: r in rs <==> r in front || r == last;
    }
  }

  function Names(scn: Scn): Response -> bool {
    (r: Response) => r.scn == scn
  }

  function IsFor(ls: LsId, version: int): Response -> bool {
    (r: Response) => r.ls == ls && r.version == version
  }

  /** The responses that name this flashback point. */
  function Naming(rs: seq<Response>, scn: Scn): seq<Response> {
    Keep(rs, Names(scn))
  }

  /** The responses that the service hands to the operator of a stream and mode version. */
  function Matching(rs: seq<Response>, ls: LsId, version: int): seq<Response> {
    Keep(rs, IsFor(ls, version))
  }

  /** The server has sent a valid response that names this point. */
  ghost predicate AnsweredFor(rs: seq<Response>, s: Addr, scn: Scn) {
    exists r :: r in rs && r.valid && r.src == s && r.scn == scn
  }

  lemma AnsweredNaming(rs: seq<Response>, s: Addr, scn: Scn)
    ensures Answered(Naming(rs, scn), s) <==> AnsweredFor(rs, s, scn)
  {
    KeepExact(rs, Names(scn));
    var named := Naming(rs, scn);
    if Answered(named, s) {
      var k :| 0 <= k < |named| && named[k].valid && named[k].src == s;
      assert named[k] in named;
    }
    if AnsweredFor(rs, s, scn) {
      var r :| r in rs && r.valid && r.src == s && r.scn == scn;
      assert r in named;
      var k :| 0 <= k < |named| && named[k] == r;
    }
  }

  /** One member, one valid response, and it names another point: the stream completes. */
  lemma OtherPointCompletes()
    ensures var c := Confirmation(true, [1], [], {}, {});
            var rs := [Response(true, 1001, 5, 1, 99)];
            && Complete(ConfirmAll(c, rs)) && !Complete(ConfirmAll(c, Naming(rs, 50)))
  {
    var c := Confirmation(true, [1], [], {}, {});
    var rs := [Response(true, 1001, 5, 1, 99)];
    assert rs[0].valid && rs[0].src == 1;
    CompletesIff(c, rs);
    CompletesIff(c, Naming(rs, 50));
    AnsweredNaming(rs, 1, 50);
    assert 1 in c.members;
  }

  /**
   A stream that completed has also completed for the requested point exactly when every listed
   server has sent a valid response that names it.
   */
  lemma CompletedForPointIff(c: Confirmation, rs: seq<Response>, scn: Scn)
    requires c.hasList && c.doneMembers == {} && c.doneLearners == {}
    requires Complete(ConfirmAll(c, rs))
    ensures Complete(ConfirmAll(c, Naming(rs, scn))) <==>
              forall s :: s in c.members + c.learners ==> AnsweredFor(rs, s, scn)
  {
    CompletesIff(c, rs);
    CompletesIff(c, Naming(rs, scn));
    forall s ensures Answered(Naming(rs, scn), s) <==> AnsweredFor(rs, s, scn) {
      AnsweredNaming(rs, s, scn);
    }
  }

  /**
   So completion can be trusted when all responses to the stream under its mode version name the
   requested point, that is, when no flashback to another point was asked for under that version.
   */
  lemma OnePointPerVersion(c: Confirmation, all: seq<Response>, ls: LsId, version: int, scn: Scn)
    requires c.hasList && c.doneMembers == {} && c.doneLearners == {}
    requires forall r :: r in all && r.valid && r.ls == ls && r.version == version ==> r.scn == scn
    requires Complete(ConfirmAll(c, Matching(all, ls, version)))
    ensures Complete(ConfirmAll(c, Naming(Matching(all, ls, version), scn)))
  {
    var rs := Matching(all, ls, version);
    KeepExact(all, IsFor(ls, version));
    CompletesIff(c, rs);
    forall s | s in c.members + c.learners ensures AnsweredFor(rs, s, scn) {
      assert Answered(rs, s);
      var k :| 0 <= k < |rs| && rs[k].valid && rs[k].src == s;
      assert rs[k] in rs;
    }
    CompletedForPointIff(c, rs, scn);
  }
}
