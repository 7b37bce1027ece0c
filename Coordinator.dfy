/** The data update coordinator of the integration
    (`NanoKVMDataUpdateCoordinator` in custom_components/nanokvm/__init__.py).

    The vendor client is an oracle: the n-th call it receives, whatever it is,
    is answered by `ReplyAt(script, n)`. A reply is either an answer carrying
    what the device reports, an authentication failure, or a communication
    failure (a client or device error, or the ten-second timeout around the
    reads expiring). */
module Coordinator {
  import opened Common
  import opened Device

  datatype CallError = AuthFailure | CommFailure

  datatype Reply = Answer(report: DeviceState) | Fail(error: CallError)

  /** The reply to the n-th call; a device that has stopped answering times out. */
  function ReplyAt(script: seq<Reply>, n: nat): Reply {
    if n < |script| then script[n] else Fail(CommFailure)
  }

  /** The error a reply carries, if it is a failure. */
  function ErrorOf(reply: Reply): Option<CallError> {
    if reply.Fail? then Some(reply.error) else None
  }

  /** The calls the coordinator makes on the client, as recorded by the oracle. */
  datatype Call = AuthCall(username: string, password: string) | ReadCall(read: Read)

  /** The coordinator's eleven fields, in the order of the reads that assign
      them. `device_info` is set when the coordinator is built; the others are
      None until a read stores them. */
  type Fields = f: seq<Option<Value>> | |f| == ReadCount
    witness [None, None, None, None, None, None, None, None, None, None, None]

  /** The fields of a coordinator just built: only `device_info` is set. */
  function Unread(info: DeviceInfo): (f: Fields)
    ensures f[GetInfo] == Some(InfoValue(info))
    ensures forall r: Read :: r != GetInfo ==> f[r] == None
  {
    [Some(InfoValue(info)), None, None, None, None, None, None, None, None, None, None]
  }

  /** The fields after read `r` has been answered with report `d`. */
  function Store(f: Fields, r: Read, d: DeviceState): Fields {
    f[r := Some(Component(d, r))]
  }

  /** The field of read `r` holds a value of the kind that read returns. */
  predicate Holds(f: Fields, r: Read) {
    f[r].Some? && Source(f[r].value) == r
  }

  /** Every field holds a value. */
  predicate Populated(f: Fields) {
    forall r: Read :: Holds(f, r)
  }

  /** The dictionary a successful refresh returns, built from the fields. */
  function Publish(f: Fields): (d: DeviceState)
    requires Populated(f)
    ensures forall r: Read :: f[r] == Some(Component(d, r))
  {
    assert Holds(f, GetInfo) && Holds(f, GetHardware) && Holds(f, GetGpio) && Holds(f, GetVirtualDeviceStatus);
    assert Holds(f, GetSshState) && Holds(f, GetMdnsState) && Holds(f, GetHidMode) && Holds(f, GetOledInfo);
    assert Holds(f, GetWifiStatus) && Holds(f, GetMountedImage) && Holds(f, GetCdromStatus);
    DeviceState(
      f[GetInfo].value.info, f[GetHardware].value.hardware, f[GetGpio].value.gpio,
      f[GetVirtualDeviceStatus].value.virtualDevice, f[GetSshState].value.ssh, f[GetMdnsState].value.mdns,
      f[GetHidMode].value.hid, f[GetOledInfo].value.oled, f[GetWifiStatus].value.wifi,
      f[GetMountedImage].value.image, f[GetCdromStatus].value.cdrom)
  }

  /** The state a refresh works on: whether the client holds a token, the calls
      made on the client so far, and the coordinator fields. */
  datatype Session = Session(token: bool, calls: seq<Call>, fields: Fields)

  /** The replies not yet consumed. */
  function Remaining(script: seq<Reply>, s: Session): nat {
    if |s.calls| <= |script| then |script| - |s.calls| else 0
  }

  /** `client.authenticate(username, password)`: a token is held afterwards when
      the device accepted the credentials (a rejected attempt leaves it as it was). */
  function Authenticated(script: seq<Reply>, username: string, password: string, s: Session): Session {
    var reply := ReplyAt(script, |s.calls|);
    s.(token := s.token || reply.Answer?, calls := s.calls + [AuthCall(username, password)])
  }

  /** The outcome of a sequence of reads: the first error, if any, and the state afterwards. */
  datatype Attempted = Attempted(error: Option<CallError>, after: Session)

  // A batch of reads from place `i` on whose first read gets reply `n` is
  // described aspect by aspect: the calls it issues, the error it ends with and
  // the fields it leaves. FetchStep shows the three advance together, one read
  // at a time.

  /** The reads issued: each read in turn, until one of them fails. */
  function ReadsIssued(script: seq<Reply>, n: nat, i: nat): (calls: seq<Call>)
    requires i <= ReadCount
    ensures |calls| <= ReadCount - i
    ensures i < ReadCount ==> 0 < |calls|
    decreases ReadCount - i
  {
    if i == ReadCount then []
    else [ReadCall(i)] + (if ReplyAt(script, n).Fail? then [] else ReadsIssued(script, n + 1, i + 1))
  }

  /** The error of the first failed read, if any. */
  function FirstError(script: seq<Reply>, n: nat, i: nat): Option<CallError>
    requires i <= ReadCount
    decreases ReadCount - i
  {
    if i == ReadCount then None
    else if ReplyAt(script, n).Fail? then Some(ReplyAt(script, n).error)
    else FirstError(script, n + 1, i + 1)
  }

  /** The fields after each answered read has stored its answer in its own field;
      the fields of the reads before `i` are left alone, no field loses its value,
      and when no read fails every field from `i` on holds a value. */
  function StoreAnswers(f: Fields, script: seq<Reply>, n: nat, i: nat): (g: Fields)
    requires i <= ReadCount
    ensures forall q: Read :: q < i ==> g[q] == f[q]
    ensures forall q: Read :: Holds(f, q) ==> Holds(g, q)
    ensures FirstError(script, n, i).None? ==> forall q: Read :: i <= q ==> Holds(g, q)
    decreases ReadCount - i
  {
    if i == ReadCount || ReplyAt(script, n).Fail? then f
    else
      StoreAnswers(Store(f, i, ReplyAt(script, n).report), script, n + 1, i + 1)
  }

  /** Reads the reads from place `i` on, one after the other, storing each answer in its
      field as soon as it arrives and stopping at the first failed read. */
  function FetchFrom(script: seq<Reply>, s: Session, i: nat): Attempted
    requires i <= ReadCount
  {
    var n := |s.calls|;
    Attempted(FirstError(script, n, i),
              s.(calls := s.calls + ReadsIssued(script, n, i), fields := StoreAnswers(s.fields, script, n, i)))
  }

  /** A read that is answered stores its answer in its field and leaves the rest
      of the batch to the next read. */
  lemma FetchStepAnswered(script: seq<Reply>, s: Session, i: nat)
    requires i < ReadCount && ReplyAt(script, |s.calls|).Answer?
    ensures FetchFrom(script, s, i) ==
              FetchFrom(script, s.(calls := s.calls + [ReadCall(i)],
                                   fields := Store(s.fields, i, ReplyAt(script, |s.calls|).report)), i + 1)
  {
    var n := |s.calls|;
    AnswersStepAnswered(script, s.fields, n, i);
    CallsStepAnswered(script, s.calls, i);
  }

  /** An answered read leaves the error to the next read, and stores its answer
      before the next read stores the rest. */
  lemma AnswersStepAnswered(script: seq<Reply>, f: Fields, n: nat, i: nat)
    requires i < ReadCount && ReplyAt(script, n).Answer?
    ensures FirstError(script, n, i) == FirstError(script, n + 1, i + 1)
    ensures StoreAnswers(f, script, n, i) == StoreAnswers(Store(f, i, ReplyAt(script, n).report), script, n + 1, i + 1)
  {
  }

  /** The calls of a batch whose read at place `i` is answered: that read, then the rest. */
  lemma CallsStepAnswered(script: seq<Reply>, earlier: seq<Call>, i: nat)
    requires i < ReadCount && ReplyAt(script, |earlier|).Answer?
    ensures earlier + ReadsIssued(script, |earlier|, i)
         == (earlier + [ReadCall(i)]) + ReadsIssued(script, |earlier| + 1, i + 1)
  {
    assert ReadsIssued(script, |earlier|, i) == [ReadCall(i)] + ReadsIssued(script, |earlier| + 1, i + 1);
  }

  /** After the last read nothing is left to do. */
  lemma FetchComplete(script: seq<Reply>, s: Session)
    ensures FetchFrom(script, s, ReadCount) == Attempted(None, s)
  {
    assert s.calls + [] == s.calls;
  }

  /** A read that fails ends the batch with its error, having changed no field. */
  lemma FetchStepFailed(script: seq<Reply>, s: Session, i: nat)
    requires i < ReadCount && ReplyAt(script, |s.calls|).Fail?
    ensures FetchFrom(script, s, i) ==
              Attempted(Some(ReplyAt(script, |s.calls|).error), s.(calls := s.calls + [ReadCall(i)]))
  {
    assert ReadsIssued(script, |s.calls|, i) == [ReadCall(i)];
  }

  /** One pass of the refresh body: authenticate first when there is no token,
      then the eleven reads. */
  function Attempt(script: seq<Reply>, username: string, password: string, s: Session): (r: Attempted)
    ensures |s.calls| < |r.after.calls|
    ensures r.error.None? ==> Populated(r.after.fields)
    ensures Populated(s.fields) ==> Populated(r.after.fields)
  {
    if s.token then FetchFrom(script, s, 0)
    else
      var s1 := Authenticated(script, username, password, s);
      var reply := ReplyAt(script, |s.calls|);
      if reply.Fail? then Attempted(Some(reply.error), s1)
      else FetchFrom(script, s1, 0)
  }

  datatype Failure = CommunicationError | AuthenticationFailed

  /** `UpdateFailed("Error communicating ...")` or `UpdateFailed("Authentication failed ...")`. */
  datatype Outcome = Success(data: DeviceState) | UpdateFailed(reason: Failure)

  datatype Refreshed = Refreshed(outcome: Outcome, after: Session)

  /** `_async_update_data`: one refresh. A communication failure fails the refresh.
      An authentication failure (of the first authentication or of any read) leads to
      one more authentication and, when that is accepted, to a complete new refresh;
      any failure of that re-authentication or of the nested refresh is reported as an
      authentication failure. Nothing bounds the nesting except the device's replies. */
  function Update(script: seq<Reply>, username: string, password: string, s: Session): (r: Refreshed)
    ensures |s.calls| < |r.after.calls|
    ensures r.outcome.Success? ==>
      Populated(r.after.fields) && forall q: Read :: r.after.fields[q] == Some(Component(r.outcome.data, q))
    ensures Populated(s.fields) ==> Populated(r.after.fields)
    ensures r.outcome == UpdateFailed(CommunicationError) <==>
      Attempt(script, username, password, s).error == Some(CommFailure)
    decreases Remaining(script, s)
  {
    var a := Attempt(script, username, password, s);
    match a.error
    case None => Refreshed(Success(Publish(a.after.fields)), a.after)
    case Some(CommFailure) => Refreshed(UpdateFailed(CommunicationError), a.after)
    case Some(AuthFailure) =>
      var reply := ReplyAt(script, |a.after.calls|);
      var s3 := Authenticated(script, username, password, a.after);
      if reply.Fail? then Refreshed(UpdateFailed(AuthenticationFailed), s3)
      else
        var inner := Update(script, username, password, s3);
        Refreshed(if inner.outcome.Success? then inner.outcome else UpdateFailed(AuthenticationFailed), inner.after)
  }

  // ---- Properties of a refresh ----

  /** The index of the reply at which the reads from place `i` on, issued from
      reply `n` on, stop: the first failed reply, or the one after the last read. */
  function Stop(script: seq<Reply>, n: nat, i: nat): (m: nat)
    requires i <= ReadCount
    ensures n <= m && i + (m - n) <= ReadCount
    decreases ReadCount - i
  {
    if i == ReadCount || ReplyAt(script, n).Fail? then n else Stop(script, n + 1, i + 1)
  }

  /** Replies lo .. hi-1 are all answers. */
  predicate AnswersBetween(script: seq<Reply>, lo: nat, hi: nat) {
    forall j :: lo <= j < hi ==> ReplyAt(script, j).Answer?
  }

  /** Stop is the first failed reply: every reply before it is an answer, and it
      is itself a failure unless every read was answered. */
  lemma {:induction false} StopIsFirstFailure(script: seq<Reply>, n: nat, i: nat)
    requires i <= ReadCount
    ensures AnswersBetween(script, n, Stop(script, n, i))
    ensures i + (Stop(script, n, i) - n) < ReadCount ==> ReplyAt(script, Stop(script, n, i)).Fail?
    decreases ReadCount - i
  {
    if i < ReadCount && ReplyAt(script, n).Answer? {
      StopIsFirstFailure(script, n + 1, i + 1);
    }
  }

  /** Conversely, a reply index m with answers before it and a failure at it
      (or no read left) is where the reads stop. */
  lemma {:induction false} StopAt(script: seq<Reply>, n: nat, i: nat, m: nat)
    requires n <= m && i + (m - n) <= ReadCount
    requires AnswersBetween(script, n, m)
    requires i + (m - n) < ReadCount ==> ReplyAt(script, m).Fail?
    ensures Stop(script, n, i) == m
    decreases m - n
  {
    if n < m {
      assert ReplyAt(script, n).Answer?;
      StopAt(script, n + 1, i + 1, m);
    }
  }

  /** A batch of reads ends with the error of the reply at which it stops, and
      with no error exactly when every read was answered. */
  lemma {:induction false} FirstErrorAtStop(script: seq<Reply>, n: nat, i: nat)
    requires i <= ReadCount
    ensures var m := Stop(script, n, i);
            FirstError(script, n, i) == if i + (m - n) == ReadCount then None else ErrorOf(ReplyAt(script, m))
    decreases ReadCount - i
  {
    if i < ReadCount && ReplyAt(script, n).Answer? {
      FirstErrorAtStop(script, n + 1, i + 1);
    }
  }

  /** One call per answered read, plus one for the failed read. */
  lemma {:induction false} ReadsIssuedCount(script: seq<Reply>, n: nat, i: nat)
    requires i <= ReadCount
    ensures var m := Stop(script, n, i);
            |ReadsIssued(script, n, i)| == (m - n) + (if i + (m - n) == ReadCount then 0 else 1)
    decreases ReadCount - i
  {
    if i < ReadCount && ReplyAt(script, n).Answer? {
      ReadsIssuedCount(script, n + 1, i + 1);
    }
  }

  /** The j-th of `calls` is the read at place `i + j`. */
  predicate InOrder(calls: seq<Call>, i: nat) {
    forall j :: 0 <= j < |calls| ==> calls[j].ReadCall? && calls[j].read == i + j
  }

  /** The read at place `i` followed by reads in order from `i + 1` on. */
  lemma InOrderCons(calls: seq<Call>, rest: seq<Call>, i: nat)
    requires i < ReadCount && InOrder(rest, i + 1) && calls == [ReadCall(i)] + rest
    ensures InOrder(calls, i)
  {
    forall j | 0 <= j < |calls| ensures calls[j].ReadCall? && calls[j].read == i + j {
      if 0 < j {
        var k := j - 1;
        assert rest[k] == calls[j];
        assert i + 1 + k < ReadCount;
      }
    }
  }

  /** The reads are issued in order: the j-th call of a batch starting at place
      `i` is the read at place `i + j`. */
  lemma {:induction false} ReadsIssuedInOrder(script: seq<Reply>, n: nat, i: nat)
    requires i <= ReadCount
    ensures InOrder(ReadsIssued(script, n, i), i)
    decreases ReadCount - i
  {
    if i < ReadCount {
      if ReplyAt(script, n).Answer? {
        ReadsIssuedInOrder(script, n + 1, i + 1);
        InOrderCons(ReadsIssued(script, n, i), ReadsIssued(script, n + 1, i + 1), i);
      } else {
        assert ReadsIssued(script, n, i) == [ReadCall(i)];
      }
    } else {
      assert |ReadsIssued(script, n, i)| == 0;
    }
  }

  /** Each answered read has stored its answer in its own field; the failed read
      and the reads after it leave their fields as they were, so a failed batch
      leaves the fields partly updated. */
  lemma {:induction false} StoreAnswersField(f: Fields, script: seq<Reply>, n: nat, i: nat, q: Read)
    requires i <= ReadCount
    ensures var g := StoreAnswers(f, script, n, i);
            var j := n + (q - i);
            if i <= q && j < Stop(script, n, i)
            then ReplyAt(script, j).Answer? && g[q] == Some(Component(ReplyAt(script, j).report, q))
            else g[q] == f[q]
    decreases ReadCount - i
  {
    if i < ReadCount && ReplyAt(script, n).Answer? {
      var f1 := Store(f, i, ReplyAt(script, n).report);
      StoreAnswersField(f1, script, n + 1, i + 1, q);
      assert StoreAnswers(f, script, n, i) == StoreAnswers(f1, script, n + 1, i + 1);
      assert Stop(script, n, i) == Stop(script, n + 1, i + 1);
      var g := StoreAnswers(f, script, n, i);
      if q == i {
        assert n + (q - i) == n;
        assert g[q] == f1[q] == Some(Component(ReplyAt(script, n).report, q));
      } else if i < q {
        assert (n + 1) + (q - (i + 1)) == n + (q - i);
      } else {
        assert g[q] == f1[q] == f[q];
      }
    }
  }

  /** A batch of reads from a token whose k-th read fails with error `e`
      ends with `e` after k + 1 calls, the fields of the first k reads holding
      the new answers and the others their previous values. */
  lemma FailedBatch(script: seq<Reply>, s: Session, k: nat, e: CallError)
    requires k < ReadCount
    requires AnswersBetween(script, |s.calls|, |s.calls| + k)
    requires ReplyAt(script, |s.calls| + k) == Fail(e)
    ensures var a := FetchFrom(script, s, 0);
            && a.error == Some(e)
            && |a.after.calls| == |s.calls| + k + 1
            && (forall q: Read :: q < k ==>
                  ReplyAt(script, |s.calls| + q).Answer? &&
                  a.after.fields[q] == Some(Component(ReplyAt(script, |s.calls| + q).report, q)))
            && (forall q: Read :: k <= q ==> a.after.fields[q] == s.fields[q])
  {
    var n := |s.calls|;
    StopAt(script, n, 0, n + k);
    FirstErrorAtStop(script, n, 0);
    ReadsIssuedCount(script, n, 0);
    StoredPrefix(s.fields, script, n, k);
  }

  /** A batch of reads that stops after k answered reads leaves the first k
      fields holding those answers and the others as they were. */
  lemma StoredPrefix(f: Fields, script: seq<Reply>, n: nat, k: nat)
    requires k <= ReadCount && Stop(script, n, 0) == n + k
    ensures forall q: Read :: q < k ==>
              ReplyAt(script, n + q).Answer? &&
              StoreAnswers(f, script, n, 0)[q] == Some(Component(ReplyAt(script, n + q).report, q))
    ensures forall q: Read :: k <= q ==> StoreAnswers(f, script, n, 0)[q] == f[q]
  {
    forall q: Read | q < k
      ensures ReplyAt(script, n + q).Answer?
      ensures StoreAnswers(f, script, n, 0)[q] == Some(Component(ReplyAt(script, n + q).report, q))
    {
      StoreAnswersField(f, script, n, 0, q);
      assert n + (q - 0) == n + q;
    }
    forall q: Read | k <= q ensures StoreAnswers(f, script, n, 0)[q] == f[q] {
      StoreAnswersField(f, script, n, 0, q);
    }
  }

  /** A refresh with a token whose batch of reads ends with a communication
      error fails with "Error communicating" and keeps what the batch left. */
  lemma CommFailureEndsRefresh(script: seq<Reply>, username: string, password: string, s: Session)
    requires s.token && FetchFrom(script, s, 0).error == Some(CommFailure)
    ensures Update(script, username, password, s) == Refreshed(UpdateFailed(CommunicationError), FetchFrom(script, s, 0).after)
  {
  }

  /** A refresh whose k-th read fails with a communication error reports
      "Error communicating", yet leaves the fields of the first k reads holding
      the new answers and the others their previous values. */
  lemma RefreshFailureKeepsPartialFields(script: seq<Reply>, username: string, password: string, s: Session, k: nat)
    requires s.token
    requires k < ReadCount
    requires AnswersBetween(script, |s.calls|, |s.calls| + k)
    requires ReplyAt(script, |s.calls| + k) == Fail(CommFailure)
    ensures var r := Update(script, username, password, s);
            && r.outcome == UpdateFailed(CommunicationError)
            && |r.after.calls| == |s.calls| + k + 1
            && (forall q: Read :: q < k ==>
                  ReplyAt(script, |s.calls| + q).Answer? &&
                  r.after.fields[q] == Some(Component(ReplyAt(script, |s.calls| + q).report, q)))
            && (forall q: Read :: k <= q ==> r.after.fields[q] == s.fields[q])
  {
    FailedBatch(script, s, k, CommFailure);
    CommFailureEndsRefresh(script, username, password, s);
  }

  /** With credentials the device keeps rejecting, a refresh without a token
      ends after two authentication attempts, reads nothing and reports an
      authentication failure. */
  lemma RejectedCredentialsEndRefresh(script: seq<Reply>, username: string, password: string, s: Session)
    requires !s.token
    requires ReplyAt(script, |s.calls|) == Fail(AuthFailure)
    requires ReplyAt(script, |s.calls| + 1).Fail?
    ensures var r := Update(script, username, password, s);
            && r.outcome == UpdateFailed(AuthenticationFailed)
            && r.after.calls == s.calls + [AuthCall(username, password), AuthCall(username, password)]
            && r.after.fields == s.fields && !r.after.token
  {
  }

  /** n rounds in which the first read is rejected and the re-authentication accepted. */
  function Rejections(n: nat, d: DeviceState): (replies: seq<Reply>)
    ensures |replies| == 2 * n
    ensures forall j :: 0 <= j < 2 * n ==> replies[j] == if j % 2 == 0 then Fail(AuthFailure) else Answer(d)
  {
    seq(2 * n, j => if j % 2 == 0 then Fail(AuthFailure) else Answer(d))
  }

  /** Eleven answers carrying the same report. */
  function Answers(d: DeviceState): (replies: seq<Reply>)
    ensures |replies| == ReadCount && forall j :: 0 <= j < ReadCount ==> replies[j] == Answer(d)
  {
    seq(ReadCount, _ => Answer(d))
  }

  /** The calls those rounds cause. */
  function RetryCalls(n: nat, username: string, password: string): (calls: seq<Call>)
    ensures |calls| == 2 * n
    ensures forall j :: 0 <= j < 2 * n ==>
              calls[j] == if j % 2 == 0 then ReadCall(GetInfo) else AuthCall(username, password)
  {
    seq(2 * n, j => if j % 2 == 0 then ReadCall(GetInfo) else AuthCall(username, password))
  }

  /** The calls of n rounds, after any earlier calls, are those of the first
      round followed by those of the other n - 1. */
  lemma RetryCallsUnfold(earlier: seq<Call>, n: nat, username: string, password: string)
    requires 0 < n
    ensures earlier + RetryCalls(n, username, password)
         == earlier + [ReadCall(GetInfo), AuthCall(username, password)] + RetryCalls(n - 1, username, password)
  {
    var first := [ReadCall(GetInfo), AuthCall(username, password)];
    assert RetryCalls(n, username, password) == first + RetryCalls(n - 1, username, password) by {
      forall j | 0 <= j < 2 * n
        ensures RetryCalls(n, username, password)[j] == (first + RetryCalls(n - 1, username, password))[j]
      {
        if 2 <= j {
          assert (j - 2) % 2 == j % 2;
        }
      }
    }
  }

  /** The eleven reads of one complete pass. */
  function ReadCalls(): (calls: seq<Call>)
    ensures |calls| == ReadCount && forall m :: 0 <= m < ReadCount ==> calls[m] == ReadCall(m)
  {
    seq(ReadCount, m requires 0 <= m < ReadCount => ReadCall(m))
  }

  /** When all eleven reads are answered, the batch ends without error and
      has issued the eleven reads in order. */
  lemma AnsweredBatchCalls(script: seq<Reply>, n: nat)
    requires AnswersBetween(script, n, n + ReadCount)
    ensures FirstError(script, n, 0).None? && ReadsIssued(script, n, 0) == ReadCalls()
  {
    StopAt(script, n, 0, n + ReadCount);
    FirstErrorAtStop(script, n, 0);
    ReadsIssuedCount(script, n, 0);
    ReadsIssuedInOrder(script, n, 0);
    var issued := ReadsIssued(script, n, 0);
    forall m | 0 <= m < ReadCount ensures issued[m] == ReadCalls()[m] {
      assert issued[m] == ReadCall(0 + m);
    }
  }

  /** When all eleven reads are answered with the parts of one report, every
      field holds its part of that report. */
  lemma AnsweredBatchFields(f: Fields, script: seq<Reply>, n: nat, d: DeviceState)
    requires forall j :: n <= j < n + ReadCount ==> ReplyAt(script, j) == Answer(d)
    ensures forall q: Read :: StoreAnswers(f, script, n, 0)[q] == Some(Component(d, q))
  {
    StopAt(script, n, 0, n + ReadCount);
    StoredPrefix(f, script, n, ReadCount);
  }

  /** A refresh with a valid token on a device that answers every read with the
      parts of one report issues the eleven reads in order and succeeds with
      that report. */
  lemma CompleteRefresh(script: seq<Reply>, username: string, password: string, s: Session, d: DeviceState)
    requires s.token
    requires forall j :: |s.calls| <= j < |s.calls| + ReadCount ==> ReplyAt(script, j) == Answer(d)
    ensures var r := Update(script, username, password, s);
            r.outcome == Success(d) && r.after.calls == s.calls + ReadCalls()
  {
    var a := FetchFrom(script, s, 0);
    AnsweredBatchCalls(script, |s.calls|);
    AnsweredBatchFields(s.fields, script, |s.calls|, d);
    var r := Update(script, username, password, s);
    assert r.outcome.Success? && r.after == a.after;
    forall q: Read ensures Component(r.outcome.data, q) == Component(d, q) {
      assert a.after.fields[q] == Some(Component(d, q));
    }
    ComponentsDetermineState(r.outcome.data, d);
  }

  /** A token the device rejects at the first read leads to one authentication
      and, when that is accepted, to a nested refresh; when the nested refresh
      succeeds, the refresh ends as the nested one does. */
  lemma RejectedTokenRetries(script: seq<Reply>, username: string, password: string, s: Session)
    requires s.token
    requires ReplyAt(script, |s.calls|) == Fail(AuthFailure)
    requires ReplyAt(script, |s.calls| + 1).Answer?
    ensures var inner := Update(script, username, password,
                                s.(calls := s.calls + [ReadCall(GetInfo), AuthCall(username, password)]));
            && (inner.outcome.Success? ==> Update(script, username, password, s) == inner)
            && (!inner.outcome.Success? ==>
                  Update(script, username, password, s) == Refreshed(UpdateFailed(AuthenticationFailed), inner.after))
  {
    FetchStepFailed(script, s, 0);
    var s1 := s.(calls := s.calls + [ReadCall(GetInfo)]);
    var s3 := s.(calls := s.calls + [ReadCall(GetInfo), AuthCall(username, password)]);
    assert Attempt(script, username, password, s) == Attempted(Some(AuthFailure), s1);
    assert ReplyAt(script, |s1.calls|).Answer?;
    assert Authenticated(script, username, password, s1) == s3;
  }

  /** Whatever fails after an authentication failure is reported as an
      authentication failure: a rejected re-authentication, or a nested refresh
      that does not succeed, whatever its own reason. A nested refresh that
      succeeds is the outcome. */
  lemma RejectedTokenOutcome(script: seq<Reply>, username: string, password: string, s: Session)
    requires Attempt(script, username, password, s).error == Some(AuthFailure)
    ensures var a := Attempt(script, username, password, s);
            var reauth := ReplyAt(script, |a.after.calls|);
            var inner := Update(script, username, password, Authenticated(script, username, password, a.after));
            && (Update(script, username, password, s).outcome == UpdateFailed(AuthenticationFailed) <==>
                  reauth.Fail? || !inner.outcome.Success?)
            && (reauth.Answer? && inner.outcome.Success? ==> Update(script, username, password, s) == inner)
  {
  }

  /** The calls a refresh attempt makes extend the calls made before it, and
      the first of them is an authentication exactly when no token is held. */
  lemma AttemptFirstCall(script: seq<Reply>, username: string, password: string, s: Session)
    ensures var a := Attempt(script, username, password, s);
            && s.calls <= a.after.calls
            && a.after.calls[|s.calls|] == if s.token then ReadCall(GetInfo) else AuthCall(username, password)
  {
    var n := |s.calls|;
    if s.token {
      assert ReadsIssued(script, n, 0)[0] == ReadCall(GetInfo);
    } else {
      var s1 := Authenticated(script, username, password, s);
      assert ReadsIssued(script, |s1.calls|, 0)[0] == ReadCall(GetInfo);
      assert s1.calls[n] == AuthCall(username, password);
    }
  }

  /** The calls of a refresh extend those of its first attempt. */
  lemma {:induction false} UpdateExtendsAttempt(script: seq<Reply>, username: string, password: string, s: Session)
    ensures Attempt(script, username, password, s).after.calls <= Update(script, username, password, s).after.calls
    decreases Remaining(script, s)
  {
    var a := Attempt(script, username, password, s);
    if a.error == Some(AuthFailure) && ReplyAt(script, |a.after.calls|).Answer? {
      var s3 := Authenticated(script, username, password, a.after);
      UpdateExtendsAttempt(script, username, password, s3);
      AttemptFirstCall(script, username, password, s3);
      assert a.after.calls <= s3.calls;
    }
  }

  /** A refresh authenticates before anything else exactly when the client
      holds no token; with a token its first call is `get_info`. It only adds
      calls to those made before it. */
  lemma AuthenticatesExactlyWithoutToken(script: seq<Reply>, username: string, password: string, s: Session)
    ensures var r := Update(script, username, password, s);
            && s.calls <= r.after.calls && |s.calls| < |r.after.calls|
            && r.after.calls[|s.calls|] == if s.token then ReadCall(GetInfo) else AuthCall(username, password)
  {
    AttemptFirstCall(script, username, password, s);
    UpdateExtendsAttempt(script, username, password, s);
  }

  /** The first of n rejection rounds, seen from the script. */
  lemma RejectionRound(script: seq<Reply>, base: nat, n: nat, d: DeviceState)
    requires 0 < n && base <= |script|
    requires script[base..] == Rejections(n, d) + Answers(d)
    ensures ReplyAt(script, base) == Fail(AuthFailure) && ReplyAt(script, base + 1) == Answer(d)
    ensures base + 2 <= |script| && script[base + 2..] == Rejections(n - 1, d) + Answers(d)
  {
    var tail := script[base..];
    assert Rejections(n, d) == [Fail(AuthFailure), Answer(d)] + Rejections(n - 1, d) by {
      forall j | 0 <= j < 2 * n
        ensures Rejections(n, d)[j] == ([Fail(AuthFailure), Answer(d)] + Rejections(n - 1, d))[j]
      {
        if 2 <= j {
          assert (j - 2) % 2 == j % 2;
        }
      }
    }
    assert tail == [Fail(AuthFailure), Answer(d)] + (Rejections(n - 1, d) + Answers(d));
    assert tail[0] == Fail(AuthFailure) && tail[1] == Answer(d);
    assert script[base + 2..] == tail[2..];
  }

  /** After the last rejection round the script answers every read. */
  lemma AnswersAfterRejections(script: seq<Reply>, base: nat, d: DeviceState)
    requires base <= |script|
    requires script[base..] == Rejections(0, d) + Answers(d)
    ensures forall j :: base <= j < base + ReadCount ==> ReplyAt(script, j) == Answer(d)
  {
    forall j | base <= j < base + ReadCount ensures ReplyAt(script, j) == Answer(d) {
      assert script[base..][j - base] == Answer(d);
    }
  }

  /** The base case of the rounds below: no rejection, then eleven answers. */
  lemma FinalRound(script: seq<Reply>, username: string, password: string, s: Session, d: DeviceState)
    requires s.token
    requires |s.calls| <= |script|
    requires script[|s.calls|..] == Rejections(0, d) + Answers(d)
    ensures var r := Update(script, username, password, s);
            && r.outcome == Success(d)
            && r.after.calls == s.calls + RetryCalls(0, username, password) + ReadCalls()
  {
    AnswersAfterRejections(script, |s.calls|, d);
    CompleteRefresh(script, username, password, s, d);
    assert s.calls + RetryCalls(0, username, password) == s.calls;
  }

  /** Nothing bounds the re-authentications of one refresh: for every n, a device
      that rejects the token n times, each time accepting the new credentials,
      and then answers everything makes the refresh authenticate n times and
      succeed with the final answers. */
  lemma {:induction false} UnboundedReauthentication(
    script: seq<Reply>, username: string, password: string, s: Session, n: nat, d: DeviceState)
    requires s.token
    requires |s.calls| <= |script|
    requires script[|s.calls|..] == Rejections(n, d) + Answers(d)
    ensures var r := Update(script, username, password, s);
            && r.outcome == Success(d)
            && r.after.calls == s.calls + RetryCalls(n, username, password) + ReadCalls()
    decreases n, 1
  {
    if n == 0 {
      FinalRound(script, username, password, s, d);
    } else {
      RejectionRound(script, |s.calls|, n, d);
      RetryRound(script, username, password, s, n, d);
    }
  }

  /** One rejection round followed by the remaining n - 1. */
  lemma {:induction false} RetryRound(
    script: seq<Reply>, username: string, password: string, s: Session, n: nat, d: DeviceState)
    requires s.token && 0 < n
    requires ReplyAt(script, |s.calls|) == Fail(AuthFailure) && ReplyAt(script, |s.calls| + 1) == Answer(d)
    requires |s.calls| + 2 <= |script| && script[|s.calls| + 2..] == Rejections(n - 1, d) + Answers(d)
    ensures var r := Update(script, username, password, s);
            && r.outcome == Success(d)
            && r.after.calls == s.calls + RetryCalls(n, username, password) + ReadCalls()
    decreases n, 0
  {
    var first := [ReadCall(GetInfo), AuthCall(username, password)];
    var s3 := s.(calls := s.calls + first);
    assert |s3.calls| == |s.calls| + 2;
    UnboundedReauthentication(script, username, password, s3, n - 1, d);
    RejectedTokenRetries(script, username, password, s);
    RetryCallsUnfold(s.calls, n, username, password);
  }

  /** The vendor client, reduced to its token and an oracle of replies. */
  class Client {
    const script: seq<Reply>
    var token: bool
    var calls: seq<Call>

    constructor (script: seq<Reply>, token: bool)
      ensures this.script == script && this.token == token && calls == []
    {
      this.script := script;
      this.token := token;
      calls := [];
    }

    method Authenticate(username: string, password: string) returns (reply: Reply)
      modifies this
      ensures reply == ReplyAt(script, |old(calls)|)
      ensures calls == old(calls) + [AuthCall(username, password)]
      ensures token == (old(token) || reply.Answer?)
    {
      reply := ReplyAt(script, |calls|);
      calls := calls + [AuthCall(username, password)];
      token := token || reply.Answer?;
    }

    method Fetch(r: Read) returns (reply: Reply)
      modifies this
      ensures reply == ReplyAt(script, |old(calls)|)
      ensures calls == old(calls) + [ReadCall(r)] && token == old(token)
    {
      reply := ReplyAt(script, |calls|);
      calls := calls + [ReadCall(r)];
    }
  }

  class DataUpdateCoordinator {
    const client: Client
    const username: string
    const password: string
    /** `device_info`, `hardware_info`, ..., `cdrom_status`, in the order of
        the reads that assign them. */
    var fields: Fields

    function State(): Session
      reads this, client
    {
      Session(client.token, client.calls, fields)
    }

    constructor (client: Client, username: string, password: string, deviceInfo: DeviceInfo)
      ensures this.client == client && this.username == username && this.password == password
      ensures fields == Unread(deviceInfo)
    {
      this.client := client;
      this.username := username;
      this.password := password;
      fields := Unread(deviceInfo);
    }

    /** Read `i` of the batch: issue the read and, when it is answered, assign
        the answer to its field. */
    method FetchOne(i: Read) returns (reply: Reply)
      modifies this, client
      ensures old(FetchFrom(client.script, State(), i)) ==
                if reply.Fail? then Attempted(Some(reply.error), State())
                else FetchFrom(client.script, State(), i + 1)
    {
      ghost var before := State();
      reply := client.Fetch(i);
      if reply.Fail? {
        FetchStepFailed(client.script, before, i);
        return;
      }
      FetchStepAnswered(client.script, before, i);
      fields := Store(fields, i, reply.report);
    }

    /** The eleven reads, each answer assigned to its field as soon as it arrives;
        the first failed read ends the batch. */
    method FetchAll() returns (error: Option<CallError>)
      modifies this, client
      ensures Attempted(error, State()) == FetchFrom(client.script, old(State()), 0)
    {
      error := None;
      var i := 0;
      while i < ReadCount
        invariant 0 <= i <= ReadCount
        invariant FetchFrom(client.script, old(State()), 0) == FetchFrom(client.script, State(), i)
      {
        var reply := FetchOne(i);
        if reply.Fail? {
          error := Some(reply.error);
          return;
        }
        i := i + 1;
      }
      FetchComplete(client.script, State());
    }

    /** `_async_update_data` */
    method UpdateData() returns (outcome: Outcome)
      modifies this, client
      ensures Refreshed(outcome, State()) == Update(client.script, username, password, old(State()))
      decreases Remaining(client.script, State())
    {
      var error: Option<CallError> := None;
      if !client.token {
        var reply := client.Authenticate(username, password);
        if reply.Fail? {
          error := Some(reply.error);
        }
      }
      if error.None? {
        error := FetchAll();
      }
      assert Attempted(error, State()) == Attempt(client.script, username, password, old(State()));
      match error {
        case None =>
          outcome := Success(Publish(fields));
        case Some(CommFailure) =>
          outcome := UpdateFailed(CommunicationError);
        case Some(AuthFailure) =>
          var reply := client.Authenticate(username, password);
          if reply.Fail? {
            outcome := UpdateFailed(AuthenticationFailed);
          } else {
            var inner := UpdateData();
            outcome := if inner.Success? then inner else UpdateFailed(AuthenticationFailed);
          }
      }
    }
  }
}
