/**
 * `KernelExecutor.execute` (jupyter-server/extensions/custom_api/kernel_executor.py): after sending
 * the code, it reads the kernel's iopub messages one at a time, collecting stream text, the plain-text
 * result, PNG images, the execution count and the error, until the first status message that says the
 * kernel is idle; if that does not arrive before the deadline, it raises a timeout.
 *
 * The messages are a parameter: `delivered` is what arrives on the iopub channel before the deadline,
 * in order.
 */
module KernelExecutor {
  import opened Wrappers
  import Numerals
  import JsArrays

  /**
   * An iopub message, with the content keys the loop reads; `None` where a key is missing.
   * Any other message type is `OtherMessage`.
   */
  datatype IopubMessage =
    | Status(executionState: Option<string>)
    | ExecuteInput(executionCount: Option<int>)
    | Stream(name: Option<string>, text: Option<string>)
    | ExecuteResultMessage(executionCount: Option<int>, plainText: Option<string>)
    | DisplayData(png: Option<string>)
    | ErrorMessage(ename: Option<string>, evalue: Option<string>, traceback: Option<seq<string>>)
    | OtherMessage(msgType: string)

  datatype StreamOutput = StreamOutput(streamType: string, text: string)
  datatype PngImage = PngImage(id: string, mimeType: string, data: string)
  datatype ErrorRecord = ErrorRecord(errorType: string, message: string, traceback: seq<string>)

  /** The dictionary `execute` returns. */
  datatype Collected = Collected(success: bool, executionCount: int, outputs: seq<StreamOutput>,
                                 result: Option<string>, images: seq<PngImage>, error: Option<ErrorRecord>)

  /** The `TimeoutError` raised when the deadline passes first. */
  datatype TimedOut = TimedOut

  /** The message that ends the loop. */
  predicate IsIdle(m: IopubMessage) {
    m.Status? && m.executionState == Some("idle")
  }

  /** The id of the n-th image (from 1): "img-001", "img-002", ... */
  function ImageId(n: nat): string {
    "img-" + Numerals.Pad3(n)
  }

  /** The five variables the loop keeps: outputs, images, result, error and execution_count. */
  datatype Progress = Progress(outputs: seq<StreamOutput>, images: seq<PngImage>, result: Option<string>,
                               error: Option<ErrorRecord>, executionCount: int)

  const Start := Progress([], [], None, None, 0)

  /** What one message other than the idle status does to the loop's variables. */
  function Absorb(p: Progress, m: IopubMessage): Progress {
    match m
    case Status(_) => p
    case ExecuteInput(count) => p.(executionCount := count.GetOr(0))
    case Stream(name, text) => p.(outputs := p.outputs + [StreamOutput(name.GetOr("stdout"), text.GetOr(""))])
    case ExecuteResultMessage(count, plainText) =>
      p.(executionCount := count.GetOr(0), result := if plainText.Some? then plainText else p.result)
    case DisplayData(png) =>
      if png.Some? then p.(images := p.images + [PngImage(ImageId(|p.images| + 1), "image/png", png.value)]) else p
    case ErrorMessage(ename, evalue, traceback) =>
      p.(error := Some(ErrorRecord(ename.GetOr("Error"), evalue.GetOr("Unknown error"), traceback.GetOr([]))))
    case OtherMessage(_) => p
  }

  /** The loop's variables after reading the messages `ms` in order. */
  function Replay(ms: seq<IopubMessage>): Progress {
    if ms == [] then Start else Absorb(Replay(ms[..|ms| - 1]), ms[|ms| - 1])
  }

  /** What `execute` returns after reading `ms`: it succeeds when no error was recorded. */
  function CollectedOf(ms: seq<IopubMessage>): Collected {
    var p := Replay(ms);
    Collected(p.error.None?, p.executionCount, p.outputs, p.result, p.images, p.error)
  }

  /** The output a message adds: a stream message adds one, named "stdout" and with text "" by default. */
  function StreamOf(m: IopubMessage): (outs: seq<StreamOutput>)
    ensures |outs| == if m.Stream? then 1 else 0
  {
    if m.Stream? then [StreamOutput(m.name.GetOr("stdout"), m.text.GetOr(""))] else []
  }

  /** The stream outputs of the messages `ms`, defined message by message from the front: one per stream message. */
  function StreamOutputs(ms: seq<IopubMessage>): (outs: seq<StreamOutput>)
    ensures |outs| <= |ms|
  {
    if ms == [] then [] else StreamOf(ms[0]) + StreamOutputs(ms[1..])
  }

  /**
   * The outcome of `execute` with a timeout of `timeout` seconds: a timeout when none is left at the
   * start or no idle status arrives, otherwise what was collected before the first idle status.
   */
  function ExecuteOutcome(timeout: int, delivered: seq<IopubMessage>): (r: Result<Collected, TimedOut>)
    ensures r.Failure? <==> timeout <= 0 || forall i :: 0 <= i < |delivered| ==> !IsIdle(delivered[i])
    ensures r.Success? ==>
      exists i :: 0 <= i < |delivered| && IsIdle(delivered[i]) &&
        (forall j :: 0 <= j < i ==> !IsIdle(delivered[j])) && r.value == CollectedOf(delivered[..i])
  {
    if timeout <= 0 then Failure(TimedOut)
    else
      match JsArrays.FindIndex(delivered, IsIdle)
      case None => Failure(TimedOut)
      case Some(i) => Success(CollectedOf(delivered[..i]))
  }

  /** Reading one more message applies `Absorb` once. */
  lemma ReplayStep(ms: seq<IopubMessage>, m: IopubMessage)
    ensures Replay(ms + [m]) == Absorb(Replay(ms), m)
  {
    assert (ms + [m])[..|ms|] == ms;
  }

  lemma PrefixGrows<T>(xs: seq<T>, k: nat)
    requires k < |xs|
    ensures xs[..k + 1] == xs[..k] + [xs[k]]
  {
  }

  /** The iopub loop of `execute`. */
  method Execute(timeout: int, delivered: seq<IopubMessage>) returns (r: Result<Collected, TimedOut>)
    ensures r == ExecuteOutcome(timeout, delivered)
  {
    if timeout <= 0 {
      return Failure(TimedOut);
    }
    var outputs: seq<StreamOutput> := [];
    var images: seq<PngImage> := [];
    var result: Option<string> := None;
    var error: Option<ErrorRecord> := None;
    var executionCount := 0;
    var k := 0;
    ghost var seen: seq<IopubMessage> := [];
    while true
      invariant 0 <= k <= |delivered| && seen == delivered[..k]
      invariant forall j :: 0 <= j < k ==> !IsIdle(delivered[j])
      invariant Progress(outputs, images, result, error, executionCount) == Replay(seen)
      decreases |delivered| - k
    {
      if k == |delivered| {
        // the deadline passes with no idle status
        return Failure(TimedOut);
      }
      var msg := delivered[k];
      PrefixGrows(delivered, k);
      ReplayStep(seen, msg);
      match msg {
        case Status(state) =>
          if state == Some("idle") {
            JsArrays.FindIndexAt(delivered, IsIdle, k);
            break;
          }
        case ExecuteInput(count) =>
          executionCount := count.GetOr(0);
        case Stream(name, text) =>
          outputs := outputs + [StreamOutput(name.GetOr("stdout"), text.GetOr(""))];
        case ExecuteResultMessage(count, plainText) =>
          executionCount := count.GetOr(0);
          if plainText.Some? {
            result := plainText;
          }
        case DisplayData(png) =>
          if png.Some? {
            images := images + [PngImage(ImageId(|images| + 1), "image/png", png.value)];
          }
        case ErrorMessage(ename, evalue, traceback) =>
          error := Some(ErrorRecord(ename.GetOr("Error"), evalue.GetOr("Unknown error"), traceback.GetOr([])));
        case OtherMessage(_) =>
      }
      seen := seen + [msg];
      k := k + 1;
    }
    r := Success(Collected(error.None?, executionCount, outputs, result, images, error));
  }

  /** The run succeeds exactly when no error message arrived before the idle status. */
  lemma {:induction false} ErrorIffErrorMessage(ms: seq<IopubMessage>)
    ensures Replay(ms).error.Some? <==> exists i :: 0 <= i < |ms| && ms[i].ErrorMessage?
  {
    if ms != [] {
      var init := ms[..|ms| - 1];
      ErrorIffErrorMessage(init);
      if Replay(init).error.Some? {
        var i :| 0 <= i < |init| && init[i].ErrorMessage?;
        assert ms[i] == init[i];
      }
      if !ms[|ms| - 1].ErrorMessage? {
        forall i | 0 <= i < |ms| - 1
          ensures ms[i] == init[i]
        {
        }
      }
    }
  }

  /** The recorded error is that of the last error message; earlier ones are overwritten. */
  lemma LastErrorWins(before: seq<IopubMessage>, m: IopubMessage, after: seq<IopubMessage>)
    requires m.ErrorMessage? && forall i :: 0 <= i < |after| ==> !after[i].ErrorMessage?
    ensures Replay(before + [m] + after).error == Some(ErrorRecord(m.ename.GetOr("Error"), m.evalue.GetOr("Unknown error"), m.traceback.GetOr([])))
  {
    LastErrorWinsFrom(Replay(before + [m]), after);
    ReplayAppend(before + [m], after);
    ReplayStep(before, m);
  }

  /** Replaying `a + b` replays `b` from where `a` left the variables. */
  function ReplayFrom(p: Progress, ms: seq<IopubMessage>): Progress
    decreases |ms|
  {
    if ms == [] then p else ReplayFrom(Absorb(p, ms[0]), ms[1..])
  }

  lemma {:induction false} ReplayAppend(a: seq<IopubMessage>, b: seq<IopubMessage>)
    ensures Replay(a + b) == ReplayFrom(Replay(a), b)
    decreases |b|
  {
    if b != [] {
      ReplayStep(a, b[0]);
      assert a + b == (a + [b[0]]) + b[1..];
      ReplayAppend(a + [b[0]], b[1..]);
    } else {
      assert a + b == a;
    }
  }

  /** Messages that are not errors leave the recorded error alone. */
  lemma {:induction false} LastErrorWinsFrom(p: Progress, ms: seq<IopubMessage>)
    requires forall i :: 0 <= i < |ms| ==> !ms[i].ErrorMessage?
    ensures ReplayFrom(p, ms).error == p.error
    decreases |ms|
  {
    if ms != [] {
      LastErrorWinsFrom(Absorb(p, ms[0]), ms[1..]);
    }
  }

  /** Messages that neither carry a count nor are execute results keep the count. */
  lemma {:induction false} CountKeptFrom(p: Progress, ms: seq<IopubMessage>)
    requires forall i :: 0 <= i < |ms| ==> !ms[i].ExecuteInput? && !ms[i].ExecuteResultMessage?
    ensures ReplayFrom(p, ms).executionCount == p.executionCount
    decreases |ms|
  {
    if ms != [] {
      CountKeptFrom(Absorb(p, ms[0]), ms[1..]);
    }
  }

  /** The execution count is that of the last execute_input or execute_result message (0 when it has none). */
  lemma LastCountWins(before: seq<IopubMessage>, m: IopubMessage, after: seq<IopubMessage>)
    requires m.ExecuteInput? || m.ExecuteResultMessage?
    requires forall i :: 0 <= i < |after| ==> !after[i].ExecuteInput? && !after[i].ExecuteResultMessage?
    ensures Replay(before + [m] + after).executionCount == m.executionCount.GetOr(0)
  {
    CountKeptFrom(Replay(before + [m]), after);
    ReplayAppend(before + [m], after);
    ReplayStep(before, m);
  }

  /** Messages other than execute results with text/plain data keep the result. */
  lemma {:induction false} ResultKeptFrom(p: Progress, ms: seq<IopubMessage>)
    requires forall i :: 0 <= i < |ms| ==> !(ms[i].ExecuteResultMessage? && ms[i].plainText.Some?)
    ensures ReplayFrom(p, ms).result == p.result
    decreases |ms|
  {
    if ms != [] {
      ResultKeptFrom(Absorb(p, ms[0]), ms[1..]);
    }
  }

  /** The result is the text/plain data of the last execute result that has one. */
  lemma LastResultWins(before: seq<IopubMessage>, m: IopubMessage, after: seq<IopubMessage>)
    requires m.ExecuteResultMessage? && m.plainText.Some?
    requires forall i :: 0 <= i < |after| ==> !(after[i].ExecuteResultMessage? && after[i].plainText.Some?)
    ensures Replay(before + [m] + after).result == m.plainText
  {
    ResultKeptFrom(Replay(before + [m]), after);
    ReplayAppend(before + [m], after);
    ReplayStep(before, m);
  }

  /** Outputs accumulate: the outputs of `a + b` are those of `a` followed by those of `b`. */
  lemma {:induction false} StreamOutputsAppend(a: seq<IopubMessage>, b: seq<IopubMessage>)
    ensures StreamOutputs(a + b) == StreamOutputs(a) + StreamOutputs(b)
  {
    if a == [] {
      assert a + b == b;
    } else {
      assert (a + b)[1..] == a[1..] + b;
      StreamOutputsAppend(a[1..], b);
    }
  }

  /** The loop's outputs are exactly the stream outputs of the messages read, in order. */
  lemma {:induction false} ReplayOutputs(ms: seq<IopubMessage>)
    ensures Replay(ms).outputs == StreamOutputs(ms)
  {
    if ms != [] {
      var init := ms[..|ms| - 1];
      ReplayOutputs(init);
      assert ms == init + [ms[|ms| - 1]];
      StreamOutputsAppend(init, [ms[|ms| - 1]]);
    }
  }

  /** Different image numbers give different ids. */
  lemma ImageIdInjective(a: nat, b: nat)
    ensures ImageId(a) == ImageId(b) ==> a == b
  {
    if ImageId(a) == ImageId(b) {
      assert Numerals.Pad3(a) == ImageId(a)[4..];
      assert Numerals.Pad3(b) == ImageId(b)[4..];
      Numerals.Pad3Injective(a, b);
    }
  }

  /** The n-th image of a run (from 0) is a PNG with id `ImageId(n + 1)`. */
  lemma {:induction false} ImagesNumbered(ms: seq<IopubMessage>, n: nat)
    requires n < |Replay(ms).images|
    ensures Replay(ms).images[n].id == ImageId(n + 1) && Replay(ms).images[n].mimeType == "image/png"
  {
    var init := ms[..|ms| - 1];
    var m := ms[|ms| - 1];
    var prior := Replay(init).images;
    assert ms == init + [m];
    ReplayStep(init, m);
    assert Replay(ms).images == prior || Replay(ms).images == prior + [PngImage(ImageId(|prior| + 1), "image/png", m.png.value)];
    if n < |prior| {
      ImagesNumbered(init, n);
      assert Replay(ms).images[n] == prior[n];
    }
  }

  /** No two images of a run share an id. */
  lemma ImageIdsDistinct(ms: seq<IopubMessage>, p: nat, q: nat)
    requires p < q < |Replay(ms).images|
    ensures Replay(ms).images[p].id != Replay(ms).images[q].id
  {
    ImagesNumbered(ms, p);
    ImagesNumbered(ms, q);
    ImageIdInjective(p + 1, q + 1);
  }

  /** Messages that arrive after the first idle status do not change the outcome. */
  lemma IgnoresMessagesAfterIdle(timeout: int, delivered: seq<IopubMessage>, later: seq<IopubMessage>)
    requires exists i :: 0 <= i < |delivered| && IsIdle(delivered[i])
    ensures ExecuteOutcome(timeout, delivered + later) == ExecuteOutcome(timeout, delivered)
  {
    var all := delivered + later;
    var i := JsArrays.FindIndex(delivered, IsIdle).value;
    assert forall j :: 0 <= j <= i ==> all[j] == delivered[j];
    JsArrays.FindIndexAt(all, IsIdle, i);
    assert all[..i] == delivered[..i];
  }
}
