/**
 The S3 stage of the pipeline: uploads gated by the circuit breaker, and the manifest of every
 triggered dump (dial9-destinations-s3/src/s3.rs). Client construction, uploads and clock
 readings are parameters.
 */
module Manifest {
  import opened Wrappers
  import B = CircuitBreaker

  /** What to disable when the client cannot be constructed. */
  datatype Failure = DisableDial9 | DisableS3

  datatype Uploader = Pending | Ready(breaker: B.Breaker) | Failed(behavior: Failure)

  datatype Upload = Uploaded(key: string) | AlreadyDeleted | UploadFailed

  /** The outcome of client construction and two clock readings: before an upload and after it. */
  datatype Env = Env(client: Option<Failure>, asked: nat, ended: nat)

  datatype ProcessResult = Stored(key: string) | PassedThrough | InitError | BreakerOpen | Gone | TransferError

  datatype Stage = Stage(uploader: Uploader, dumpKeys: map<string, seq<string>>)

  // ----- The tags of a segment -----

  /** The comma-separated pieces of a tag. */
  function Pieces(tag: string): (pieces: seq<string>)
    ensures |pieces| > 0
  {
    if |tag| == 0 then [""]
    else Extended(Pieces(tag[..|tag| - 1]), tag[|tag| - 1])
  }

  /** The pieces with a comma between any two. */
  function Joined(pieces: seq<string>): string
    requires |pieces| > 0
  {
    if |pieces| == 1 then pieces[0] else Joined(pieces[..|pieces| - 1]) + "," + pieces[|pieces| - 1]
  }

  lemma JoinedAppend(before: seq<string>, last: string)
    requires |before| > 0
    ensures Joined(before + [last]) == Joined(before) + "," + last
  {
    assert (before + [last])[..|before|] == before;
  }

  lemma JoinedMore(pieces: seq<string>)
    requires |pieces| > 0
    ensures Joined(pieces + [""]) == Joined(pieces) + ","
  {
    hide Joined;
    JoinedAppend(pieces, "");
  }

  lemma Reassociate(a: string, b: string, c: string)
    ensures a + (b + c) == a + b + c
  {
  }

  lemma JoinedLonger(before: seq<string>, last: string, c: char)
    ensures Joined(before + [last + [c]]) == Joined(before + [last]) + [c]
  {
    if |before| == 0 {
      assert before + [last] == [last] && before + [last + [c]] == [last + [c]];
    } else {
      hide Joined;
      JoinedAppend(before, last);
      JoinedAppend(before, last + [c]);
      Reassociate(Joined(before) + ",", last, [c]);
    }
  }

  /** One more character: a comma starts a piece, anything else extends the last one. */
  function Extended(pieces: seq<string>, c: char): seq<string>
    requires |pieces| > 0
  {
    if c == ',' then pieces + [""] else pieces[..|pieces| - 1] + [pieces[|pieces| - 1] + [c]]
  }

  lemma ExtendedJoined(pieces: seq<string>, c: char)
    requires |pieces| > 0
    ensures Joined(Extended(pieces, c)) == Joined(pieces) + [c]
  {
    hide Joined;
    if c == ',' {
      JoinedMore(pieces);
    } else {
      var before, last := pieces[..|pieces| - 1], pieces[|pieces| - 1];
      LastSplit(pieces);
      JoinedLonger(before, last, c);
    }
  }

  lemma LastSplit(pieces: seq<string>)
    requires |pieces| > 0
    ensures pieces[..|pieces| - 1] + [pieces[|pieces| - 1]] == pieces
  {
  }

  ghost predicate CommaFree(pieces: seq<string>) {
    forall i :: 0 <= i < |pieces| ==> ',' !in pieces[i]
  }

  lemma ExtendedCommaFree(pieces: seq<string>, c: char)
    requires |pieces| > 0 && CommaFree(pieces)
    ensures CommaFree(Extended(pieces, c))
  {
    var k := |pieces| - 1;
    assert c != ',' ==> ',' !in pieces[k] + [c];
  }

  lemma PiecesNext(tag: string)
    requires |tag| > 0
    ensures Pieces(tag) == Extended(Pieces(tag[..|tag| - 1]), tag[|tag| - 1])
  {
    hide Extended;
  }

  lemma PiecesOfNothing()
    ensures Joined(Pieces("")) == "" && CommaFree(Pieces(""))
  {
  }

  /** The pieces are the comma-free stretches of the tag, in order. */
  lemma {:induction false} PiecesSplit(tag: string)
    ensures Joined(Pieces(tag)) == tag && CommaFree(Pieces(tag))
  {
    hide *;
    if |tag| == 0 {
      PiecesOfNothing();
      assert tag == "";
    } else {
      var n := |tag| - 1;
      PiecesSplit(tag[..n]);
      PiecesNext(tag);
      assert tag == tag[..n] + [tag[n]];
      ExtendedJoined(Pieces(tag[..n]), tag[n]);
      ExtendedCommaFree(Pieces(tag[..n]), tag[n]);
    }
  }

  function WithoutEmpty(pieces: seq<string>): seq<string> {
    if |pieces| == 0 then []
    else WithoutEmpty(pieces[..|pieces| - 1]) + (if pieces[|pieces| - 1] == "" then [] else [pieces[|pieces| - 1]])
  }

  /** The dumps a segment belongs to: the non-empty pieces of its `dump_id` entry, if it has one. */
  function DumpsOf(tag: Option<string>): seq<string> {
    if tag.None? then [] else WithoutEmpty(Pieces(tag.value))
  }

  // ----- The stage -----

  function KeysOf(dumpKeys: map<string, seq<string>>, id: string): seq<string> {
    if id in dumpKeys then dumpKeys[id] else []
  }

  /** Remember a key under every dump in the list. */
  function Remembered(dumpKeys: map<string, seq<string>>, ids: seq<string>, key: string): map<string, seq<string>> {
    if |ids| == 0 then dumpKeys
    else
      var before := Remembered(dumpKeys, ids[..|ids| - 1], key);
      var id := ids[|ids| - 1];
      before[id := KeysOf(before, id) + [key]]
  }

  /** The uploader after initialization, and whether that succeeded. */
  function Initialized(u: Uploader, client: Option<Failure>): (Uploader, bool) {
    match u
    case Pending => if client.None? then (Ready(B.Closed), true) else (Failed(client.value), client.value == DisableS3)
    case Ready(_) => (u, true)
    case Failed(behavior) => (u, behavior == DisableS3)
  }

  function Processed(s: Stage, env: Env, tag: Option<string>, upload: Upload): (Stage, ProcessResult) {
    var (u, ok) := Initialized(s.uploader, env.client);
    var s' := s.(uploader := u);
    if !ok then (s', InitError)
    else if !u.Ready? then (s', PassedThrough)
    else if !B.MayAttempt(u.breaker, env.asked) then (s', BreakerOpen)
    else match upload
      case Uploaded(key) => (Stage(Ready(B.Closed), Remembered(s.dumpKeys, DumpsOf(tag), key)), Stored(key))
      case AlreadyDeleted => (s', Gone)
      case UploadFailed => (s'.(uploader := Ready(B.AfterFailure(u.breaker, env.ended))), TransferError)
  }

  /** The dump's entry is taken in every case; the manifest's segments, if one was written. */
  function DumpFinalized(s: Stage, env: Env, id: string, failed: bool, serialized: bool, put: bool): (Stage, Option<seq<string>>) {
    var segments := KeysOf(s.dumpKeys, id);
    var taken := s.(dumpKeys := s.dumpKeys - {id});
    if failed then (taken, None)
    else
      var (u, ok) := Initialized(s.uploader, env.client);
      var s' := taken.(uploader := u);
      if !ok || !u.Ready? || !B.MayAttempt(u.breaker, env.asked) || !serialized then (s', None)
      else if put then (s'.(uploader := Ready(B.Closed)), Some(segments))
      else (s'.(uploader := Ready(B.AfterFailure(u.breaker, env.ended))), None)
  }

  class S3PipelineUploader {
    var state: Uploader
    var dumpKeys: map<string, seq<string>>

    ghost function Contents(): Stage
      reads this
    {
      Stage(state, dumpKeys)
    }

    constructor ()
      ensures Contents() == Stage(Pending, map[])
    {
      state, dumpKeys := Pending, map[];
    }

    method EnsureInitialized(client: Option<Failure>) returns (ok: bool)
      modifies this`state
      ensures (state, ok) == Initialized(old(state), client)
    {
      match state
      case Pending =>
        if client.Some? {
          state := Failed(client.value);
          return client.value == DisableS3;
        }
        state := Ready(B.Closed);
        return true;
      case Ready(_) => return true;
      case Failed(behavior) => return behavior == DisableS3;
    }

    method Process(env: Env, tag: Option<string>, upload: Upload) returns (result: ProcessResult)
      modifies this
      ensures (Contents(), result) == Processed(old(Contents()), env, tag, upload)
    {
      var ok := EnsureInitialized(env.client);
      if !ok {
        return InitError;
      }
      if state == Failed(DisableS3) {
        return PassedThrough;
      }
      var breaker := state.breaker;
      if !B.MayAttempt(breaker, env.asked) {
        return BreakerOpen;
      }
      match upload
      case Uploaded(key) =>
        state := Ready(B.Closed);
        var ids := DumpsOf(tag);
        ghost var before := dumpKeys;
        for i := 0 to |ids|
          invariant dumpKeys == Remembered(before, ids[..i], key)
          invariant state == Ready(B.Closed)
        {
          assert ids[..i + 1][..i] == ids[..i];
          var known := if ids[i] in dumpKeys then dumpKeys[ids[i]] else [];
          dumpKeys := dumpKeys[ids[i] := known + [key]];
        }
        assert ids[..|ids|] == ids;
        return Stored(key);
      case AlreadyDeleted =>
        return Gone;
      case UploadFailed =>
        state := Ready(B.AfterFailure(breaker, env.ended));
        return TransferError;
    }

    method FinalizeDump(env: Env, id: string, failed: bool, serialized: bool, put: bool) returns (manifest: Option<seq<string>>)
      modifies this
      ensures (Contents(), manifest) == DumpFinalized(old(Contents()), env, id, failed, serialized, put)
    {
      var segments := if id in dumpKeys then dumpKeys[id] else [];
      dumpKeys := dumpKeys - {id};
      if failed {
        return None;
      }
      var ok := EnsureInitialized(env.client);
      if !ok || !state.Ready? {
        return None;
      }
      var breaker := state.breaker;
      if !B.MayAttempt(breaker, env.asked) || !serialized {
        return None;
      }
      if put {
        state := Ready(B.Closed);
        return Some(segments);
      }
      state := Ready(B.AfterFailure(breaker, env.ended));
      return None;
    }
  }

  // ----- Runs -----

  datatype Call =
    | ProcessCall(env: Env, tag: Option<string>, upload: Upload)
    | FinalizeCall(env: Env, id: string, failed: bool, serialized: bool, put: bool)

  function After(s: Stage, call: Call): Stage {
    match call
    case ProcessCall(env, tag, upload) => Processed(s, env, tag, upload).0
    case FinalizeCall(env, id, failed, serialized, put) => DumpFinalized(s, env, id, failed, serialized, put).0
  }

  function AfterAll(s: Stage, calls: seq<Call>): Stage {
    if |calls| == 0 then s else After(AfterAll(s, calls[..|calls| - 1]), calls[|calls| - 1])
  }

  /** The key a call uploaded under the tag `id`, as often as the tag names it. */
  function KeyFor(s: Stage, call: Call, id: string): seq<string> {
    match call
    case FinalizeCall(_, _, _, _, _) => []
    case ProcessCall(env, tag, upload) =>
      var result := Processed(s, env, tag, upload).1;
      if result.Stored? then seq(multiset(DumpsOf(tag))[id], _ => result.key) else []
  }

  /** The keys uploaded for segments tagged `id` by the calls from `from` on, in upload order. */
  function Tagged(s: Stage, calls: seq<Call>, from: nat, id: string): seq<string>
    requires from <= |calls|
  {
    if |calls| == from then []
    else
      var n := |calls| - 1;
      Tagged(s, calls[..n], from, id) + KeyFor(AfterAll(s, calls[..n]), calls[n], id)
  }

  lemma {:induction false} RememberedKeys(dumpKeys: map<string, seq<string>>, ids: seq<string>, key: string, id: string)
    ensures KeysOf(Remembered(dumpKeys, ids, key), id) == KeysOf(dumpKeys, id) + seq(multiset(ids)[id], _ => key)
  {
    if |ids| != 0 {
      var n := |ids| - 1;
      RememberedKeys(dumpKeys, ids[..n], key, id);
      assert ids == ids[..n] + [ids[n]];
      if ids[n] == id {
        assert seq(multiset(ids)[id], _ => key) == seq(multiset(ids[..n])[id], _ => key) + [key];
      }
    }
  }

  predicate Finalizes(call: Call, id: string) {
    call.FinalizeCall? && call.id == id
  }

  lemma CallKeys(s: Stage, call: Call, id: string)
    ensures KeysOf(After(s, call).dumpKeys, id) == if Finalizes(call, id) then [] else KeysOf(s.dumpKeys, id) + KeyFor(s, call, id)
  {
    if call.ProcessCall? && Processed(s, call.env, call.tag, call.upload).1.Stored? {
      RememberedKeys(s.dumpKeys, DumpsOf(call.tag), call.upload.key, id);
    }
  }

  /** The dump was not finalized by the calls from `from` on, and was by the one before, if there is one. */
  ghost predicate LastFinalizedBefore(calls: seq<Call>, from: nat, id: string) {
    && from <= |calls|
    && (from > 0 ==> Finalizes(calls[from - 1], id))
    && (forall i :: from <= i < |calls| ==> !Finalizes(calls[i], id))
  }

  /**
   Over any calls, whatever overlapping dumps do: the keys held for a dump are those uploaded for
   segments tagged with it since it was last finalized, in upload order.
   */
  lemma {:induction false} KeysAreTagged(calls: seq<Call>, from: nat, id: string)
    requires LastFinalizedBefore(calls, from, id)
    ensures KeysOf(AfterAll(Stage(Pending, map[]), calls).dumpKeys, id) == Tagged(Stage(Pending, map[]), calls, from, id)
  {
    var start := Stage(Pending, map[]);
    hide After, KeyFor, Processed;
    if |calls| != 0 {
      var n := |calls| - 1;
      CallKeys(AfterAll(start, calls[..n]), calls[n], id);
      if from < |calls| {
        KeysAreTagged(calls[..n], from, id);
      }
    }
  }

  /** Each non-empty piece of the tag names its dump as often as it occurs; a segment without a tag belongs to none. */
  lemma {:induction false} WithoutEmptyCounts(pieces: seq<string>, id: string)
    ensures multiset(WithoutEmpty(pieces))[id] == if id == "" then 0 else multiset(pieces)[id]
  {
    if |pieces| != 0 {
      var n := |pieces| - 1;
      WithoutEmptyCounts(pieces[..n], id);
      assert pieces == pieces[..n] + [pieces[n]];
    }
  }

  lemma DumpsAreTheTags(tag: Option<string>, id: string)
    ensures multiset(DumpsOf(tag))[id] == if tag.None? || id == "" then 0 else multiset(Pieces(tag.value))[id]
  {
    if tag.Some? {
      WithoutEmptyCounts(Pieces(tag.value), id);
    }
  }

  // ----- What a call does -----

  /** The stage can use S3: the client is or can now be constructed, and the breaker is closed or its wait is over. */
  predicate Usable(u: Uploader, env: Env) {
    match u
    case Pending => env.client == None
    case Ready(breaker) => breaker == B.Closed || breaker.nextRetry <= env.asked
    case Failed(_) => false
  }

  /** How a processed segment fares, by the state of the uploader. */
  lemma ProcessOutcome(s: Stage, env: Env, tag: Option<string>, upload: Upload)
    ensures var (after, result) := Processed(s, env, tag, upload);
      && (result == InitError
          <==> s.uploader == Failed(DisableDial9) || (s.uploader == Pending && env.client == Some(DisableDial9)))
      && (result == PassedThrough
          <==> s.uploader == Failed(DisableS3) || (s.uploader == Pending && env.client == Some(DisableS3)))
      && (result == BreakerOpen <==> s.uploader.Ready? && !Usable(s.uploader, env))
      && (result.Stored? <==> Usable(s.uploader, env) && upload.Uploaded?)
      && (result.Stored? ==> result.key == upload.key)
      && (result == Gone <==> Usable(s.uploader, env) && upload.AlreadyDeleted?)
      && (result == TransferError <==> Usable(s.uploader, env) && upload.UploadFailed?)
      && (!result.Stored? ==> after.dumpKeys == s.dumpKeys)
      && (s.uploader == Pending && env.client.Some? ==> after.uploader == Failed(env.client.value))
      && (s.uploader.Failed? ==> after.uploader == s.uploader)
  {
    hide Remembered, DumpsOf;
  }

  /** A manifest is written exactly if the dump completed, could be serialized, the stage can use S3 and the upload succeeded. */
  lemma ManifestWritten(s: Stage, env: Env, id: string, failed: bool, serialized: bool, put: bool)
    ensures DumpFinalized(s, env, id, failed, serialized, put).1.Some?
       <==> !failed && serialized && put && Usable(s.uploader, env)
  {
  }

  /**
   The manifest written for a dump lists exactly the keys uploaded for segments tagged with it
   since it was last finalized, in upload order; its entry is gone afterwards.
   */
  lemma ManifestIsExact(calls: seq<Call>, from: nat, call: Call)
    requires call.FinalizeCall? && LastFinalizedBefore(calls, from, call.id)
    ensures var start := Stage(Pending, map[]);
      var (after, manifest) := DumpFinalized(AfterAll(start, calls), call.env, call.id, call.failed, call.serialized, call.put);
      && (manifest.Some? ==> manifest.value == Tagged(start, calls, from, call.id))
      && (manifest.Some? <==>
            !call.failed && call.serialized && call.put && Usable(AfterAll(start, calls).uploader, call.env))
      && call.id !in after.dumpKeys
      && (forall other :: other != call.id ==> KeysOf(after.dumpKeys, other) == KeysOf(AfterAll(start, calls).dumpKeys, other))
  {
    KeysAreTagged(calls, from, call.id);
    ManifestWritten(AfterAll(Stage(Pending, map[]), calls), call.env, call.id, call.failed, call.serialized, call.put);
  }

  // ----- Attempts are gated -----

  /** When the stage used S3, if it did: the readings before and after, and whether that failed. */
  datatype Use = NoUse | Success | Failure(attempt: B.Attempt)

  function UseOf(s: Stage, call: Call): Use {
    var (u, ok) := Initialized(s.uploader, call.env.client);
    if (call.FinalizeCall? && (call.failed || !call.serialized)) || !ok || !u.Ready? || !B.MayAttempt(u.breaker, call.env.asked) then NoUse
    else if call.ProcessCall? then
      (match call.upload
       case Uploaded(_) => Success
       case AlreadyDeleted => NoUse
       case UploadFailed => Failure(B.Attempt(call.env.asked, call.env.ended)))
    else if call.put then Success
    else Failure(B.Attempt(call.env.asked, call.env.ended))
  }

  /** The failures since the last success. */
  function FailuresSince(s: Stage, calls: seq<Call>): seq<B.Attempt> {
    if |calls| == 0 then []
    else
      var n := |calls| - 1;
      match UseOf(AfterAll(s, calls[..n]), calls[n])
      case NoUse => FailuresSince(s, calls[..n])
      case Success => []
      case Failure(attempt) => FailuresSince(s, calls[..n]) + [attempt]
  }

  /** The breaker is what the failures since the last success make it. */
  ghost predicate BreakerOk(u: Uploader, failures: seq<B.Attempt>) {
    if u.Ready? then B.Gated(failures) && u.breaker == B.AfterFailures(B.FailureTimes(failures)) else failures == []
  }

  lemma GatedAppend(failures: seq<B.Attempt>, a: B.Attempt)
    requires B.Gated(failures) && a.asked <= a.failed
    requires B.MayAttempt(B.AfterFailures(B.FailureTimes(failures)), a.asked)
    ensures B.Gated(failures + [a])
    ensures B.AfterFailures(B.FailureTimes(failures + [a])) == B.AfterFailure(B.AfterFailures(B.FailureTimes(failures)), a.failed)
  {
    var all := B.FailureTimes(failures + [a]);
    assert all[..|failures|] == B.FailureTimes(failures);
    forall i | 0 <= i < |failures|
      ensures all[..i] == B.FailureTimes(failures)[..i]
    {
    }
  }

  lemma UseKeepsBreaker(s: Stage, call: Call, failures: seq<B.Attempt>)
    requires BreakerOk(s.uploader, failures) && call.env.asked <= call.env.ended
    ensures BreakerOk(After(s, call).uploader,
      match UseOf(s, call) case NoUse => failures case Success => [] case Failure(a) => failures + [a])
  {
    assert B.FailureTimes([]) == [];
    var use := UseOf(s, call);
    if use.Failure? {
      GatedAppend(failures, use.attempt);
    }
  }

  /**
   Uploads and manifests share one breaker, and both ask it first: whatever the calls, n + 1
   failures with no success in between span at least the first n backoffs.
   */
  lemma {:induction false} StageBacksOff(calls: seq<Call>)
    requires forall i :: 0 <= i < |calls| ==> calls[i].env.asked <= calls[i].env.ended
    ensures var failures := FailuresSince(Stage(Pending, map[]), calls);
      && BreakerOk(AfterAll(Stage(Pending, map[]), calls).uploader, failures)
      && forall n :: 0 <= n < |failures| ==>
           failures[n].failed >= failures[0].failed + B.BackoffSum(n) * B.SECOND
  {
    var start := Stage(Pending, map[]);
    var failures := FailuresSince(start, calls);
    if |calls| == 0 {
      assert B.FailureTimes([]) == [];
    } else {
      var n := |calls| - 1;
      StageBacksOff(calls[..n]);
      hide UseOf, After, BreakerOk;
      UseKeepsBreaker(AfterAll(start, calls[..n]), calls[n], FailuresSince(start, calls[..n]));
    }
    BreakerSpreads(AfterAll(start, calls).uploader, failures);
  }

  lemma BreakerSpreads(u: Uploader, failures: seq<B.Attempt>)
    requires BreakerOk(u, failures)
    ensures forall n :: 0 <= n < |failures| ==>
      failures[n].failed >= failures[0].failed + B.BackoffSum(n) * B.SECOND
  {
    forall n | 0 <= n < |failures|
      ensures failures[n].failed >= failures[0].failed + B.BackoffSum(n) * B.SECOND
    {
      B.FailuresSpread(failures, n);
    }
  }
}
