/**
 The one-shot scope of a frozen-input run (backend/analysis_frozen_canary.py). An operation
 either succeeds or raises and leaves the scope as it was. Digests are taken to be collision
 free, so data stands for its own digest; `None` is data that has none.
 */
module FrozenScope {
  import opened Wrappers

  datatype Owner = Owner(thread: int, task: int)

  /** What is fixed for a scope, including the stable report name of its job. */
  datatype Binding = Binding(jobId: string, ticker: string, pipelineId: string, reportName: string,
                             root: Option<string>, owner: Owner)

  /**
   Who calls, whether the controller confirms the boundary, and whether the private
   directory is still the same one.
   */
  datatype Env = Env(caller: Owner, confirmed: bool, rootUnchanged: bool)

  datatype Request = Request(threadId: string, pipelineId: string, data: Option<string>,
                             ownCheckpointer: bool, backend: string, path: string)

  datatype Operation =
    | Claim(jobId: string, ticker: string, pipelineId: string, refresh: bool)
    | ReadData
    | Bind(data: Option<string>)
    | Validate(request: Request)
    | Start(request: Request)
    | ClaimCheckpoint(threadId: string, backend: string, path: string)
    | Publish(outputDir: string, filename: string, contextTicker: string, contextPipeline: string,
        contextData: Option<string>)
    | Close

  datatype State = State(live: bool, claimed: bool, data: Option<string>, started: bool, path: Option<string>,
                         checkpointed: bool, published: bool)

  const INITIAL := State(true, false, None, false, None, false, false)

  function ThreadId(b: Binding): string { b.jobId + ":" + b.pipelineId }

  predicate Checks(b: Binding, s: State, env: Env) {
    && s.live && env.caller.thread == b.owner.thread
    && env.confirmed
    && (b.root.Some? ==> env.rootUnchanged)
  }

  predicate RequestValid(b: Binding, s: State, request: Request) {
    && s.claimed && !s.started
    && request.threadId == ThreadId(b) && request.pipelineId == b.pipelineId
    && request.data.Some? && s.data == request.data
    && !request.ownCheckpointer && request.backend == "sqlite"
    && request.path != "" && request.path[0] == '/'
  }

  /** Whether the operation is admitted. */
  predicate Admitted(b: Binding, s: State, op: Operation, env: Env) {
    match op
    case Claim(jobId, ticker, pipelineId, refresh) =>
      && !s.claimed && env.caller == b.owner
      && jobId == b.jobId && ticker == b.ticker && pipelineId == b.pipelineId && !refresh
      && Checks(b, s, env)
    case ReadData => Checks(b, s, env) && s.claimed
    case Bind(data) => Checks(b, s, env) && s.claimed && s.data.None? && data.Some?
    case Validate(request) => Checks(b, s, env) && RequestValid(b, s, request)
    case Start(request) => Checks(b, s, env) && RequestValid(b, s, request)
    case ClaimCheckpoint(threadId, backend, path) =>
      && Checks(b, s, env)
      && s.started && !s.checkpointed && backend == "sqlite"
      && s.path == Some(path) && threadId == ThreadId(b)
    case Publish(outputDir, filename, contextTicker, contextPipeline, contextData) =>
      && b.root.Some? && Checks(b, s, env)
      && s.claimed && !s.published && env.caller == b.owner
      && outputDir == b.root.value && filename == b.reportName
      && contextTicker == b.ticker && contextPipeline == b.pipelineId
      && s.data.Some? && contextData == s.data
    case Close => true
  }

  function Effect(s: State, op: Operation): State {
    match op
    case Claim(_, _, _, _) => s.(claimed := true)
    case Bind(data) => s.(data := data)
    case Start(request) => s.(started := true, path := Some(request.path))
    case ClaimCheckpoint(_, _, _) => s.(checkpointed := true)
    case Publish(_, _, _, _, _) => s.(published := true)
    case Close => s.(live := false)
    case _ => s
  }

  function Step(b: Binding, s: State, op: Operation, env: Env): State {
    if Admitted(b, s, op, env) then Effect(s, op) else s
  }

  /** The scope object; each method tells whether it succeeded. */
  class Scope {
    const binding: Binding
    var live: bool
    var claimed: bool
    var workflowStarted: bool
    var checkpointStarted: bool
    var checkpointPath: Option<string>
    var workflowData: Option<string>
    var publicationStarted: bool

    constructor (binding: Binding)
      ensures this.binding == binding && View() == INITIAL
    {
      this.binding := binding;
      live, claimed, workflowStarted, checkpointStarted := true, false, false, false;
      checkpointPath, workflowData, publicationStarted := None, None, false;
    }

    function View(): State
      reads this
    {
      State(live, claimed, workflowData, workflowStarted, checkpointPath, checkpointStarted, publicationStarted)
    }

    method Check(env: Env) returns (ok: bool)
      ensures ok == Checks(binding, View(), env)
    {
      if !live || env.caller.thread != binding.owner.thread {
        return false;
      }
      if !env.confirmed {
        return false;
      }
      return binding.root.None? || env.rootUnchanged;
    }

    method ClaimJob(jobId: string, ticker: string, pipelineId: string, refresh: bool, env: Env) returns (ok: bool)
      modifies this
      ensures ok == Admitted(binding, old(View()), Claim(jobId, ticker, pipelineId, refresh), env)
      ensures View() == Step(binding, old(View()), Claim(jobId, ticker, pipelineId, refresh), env)
    {
      if claimed || env.caller != binding.owner
         || (jobId, ticker, pipelineId) != (binding.jobId, binding.ticker, binding.pipelineId) || refresh {
        return false;
      }
      ok := Check(env);
      claimed := claimed || ok;
    }

    method BindWorkflowData(data: Option<string>, env: Env) returns (ok: bool)
      modifies this
      ensures ok == Admitted(binding, old(View()), Bind(data), env)
      ensures View() == Step(binding, old(View()), Bind(data), env)
    {
      ok := Check(env);
      if !ok || !claimed || workflowData.Some? || data.None? {
        return false;
      }
      workflowData := data;
    }

    method ValidateWorkflow(request: Request, env: Env) returns (ok: bool)
      ensures ok == Admitted(binding, View(), Validate(request), env)
    {
      ok := Check(env);
      if !ok || !claimed || workflowStarted || request.threadId != binding.jobId + ":" + binding.pipelineId
         || request.pipelineId != binding.pipelineId || request.data.None? || workflowData != request.data {
        return false;
      }
      return !request.ownCheckpointer && request.backend == "sqlite" && request.path != "" && request.path[0] == '/';
    }

    method Services(request: Request, env: Env) returns (ok: bool)
      modifies this
      ensures ok == Admitted(binding, old(View()), Start(request), env)
      ensures View() == Step(binding, old(View()), Start(request), env)
    {
      ok := ValidateWorkflow(request, env);
      if ok {
        workflowStarted, checkpointPath := true, Some(request.path);
      }
    }

    method ClaimCheckpointFor(threadId: string, backend: string, path: string, env: Env) returns (ok: bool)
      modifies this
      ensures ok == Admitted(binding, old(View()), ClaimCheckpoint(threadId, backend, path), env)
      ensures View() == Step(binding, old(View()), ClaimCheckpoint(threadId, backend, path), env)
    {
      ok := Check(env);
      if !ok || !workflowStarted || checkpointStarted || backend != "sqlite" || checkpointPath != Some(path)
         || threadId != binding.jobId + ":" + binding.pipelineId {
        return false;
      }
      checkpointStarted := true;
    }

    method PublicationOptions(outputDir: string, filename: string, ticker: string, pipelineId: string,
                              data: Option<string>, env: Env)
      returns (ok: bool)
      modifies this
      ensures ok == Admitted(binding, old(View()), Publish(outputDir, filename, ticker, pipelineId, data), env)
      ensures View() == Step(binding, old(View()), Publish(outputDir, filename, ticker, pipelineId, data), env)
    {
      if binding.root.None? {
        return false;
      }
      ok := Check(env);
      if !ok || !claimed || publicationStarted || env.caller != binding.owner || outputDir != binding.root.value
         || filename != binding.reportName || ticker != binding.ticker || pipelineId != binding.pipelineId
         || workflowData.None? || data != workflowData {
        return false;
      }
      publicationStarted := true;
    }

    method CloseScope(env: Env)
      modifies this
      ensures View() == Step(binding, old(View()), Close, env)
    {
      live := false;
    }
  }

  // ----- runs

  datatype Call = Call(op: Operation, env: Env)

  function After(b: Binding, calls: seq<Call>, n: nat): State
    requires n <= |calls|
  {
    if n == 0 then INITIAL else Step(b, After(b, calls, n - 1), calls[n - 1].op, calls[n - 1].env)
  }

  /** The call at this position succeeded. */
  predicate Succeeded(b: Binding, calls: seq<Call>, i: nat)
    requires i < |calls|
  {
    Admitted(b, After(b, calls, i), calls[i].op, calls[i].env)
  }

  datatype Kind = ClaimKind | BindKind | StartKind | CheckpointKind | PublishKind | CloseKind | OtherKind

  function KindOf(op: Operation): Kind {
    match op
    case Claim(_, _, _, _) => ClaimKind
    case Bind(_) => BindKind
    case Start(_) => StartKind
    case ClaimCheckpoint(_, _, _) => CheckpointKind
    case Publish(_, _, _, _, _) => PublishKind
    case Close => CloseKind
    case _ => OtherKind
  }

  ghost predicate SucceededAs(b: Binding, calls: seq<Call>, i: nat, kind: Kind) {
    i < |calls| && KindOf(calls[i].op) == kind && Succeeded(b, calls, i)
  }

  ghost predicate Happened(b: Binding, calls: seq<Call>, n: nat, kind: Kind) {
    exists i :: 0 <= i < n && SucceededAs(b, calls, i, kind)
  }

  /** The flag that a kind of success leaves behind. */
  predicate Flag(s: State, kind: Kind) {
    match kind
    case ClaimKind => s.claimed
    case BindKind => s.data.Some?
    case StartKind => s.started
    case CheckpointKind => s.checkpointed
    case PublishKind => s.published
    case CloseKind => !s.live
    case OtherKind => false
  }

  lemma StepFlag(b: Binding, s: State, call: Call, kind: Kind)
    requires kind != OtherKind
    ensures Flag(Step(b, s, call.op, call.env), kind) <==>
            Flag(s, kind) || (KindOf(call.op) == kind && Admitted(b, s, call.op, call.env))
  {
  }

  /** Every flag of the scope is the memory of one kind of success. */
  lemma {:induction false} FlagIsHistory(b: Binding, calls: seq<Call>, n: nat, kind: Kind)
    requires n <= |calls| && kind != OtherKind
    ensures Flag(After(b, calls, n), kind) <==> Happened(b, calls, n, kind)
  {
    if n > 0 {
      FlagIsHistory(b, calls, n - 1, kind);
      StepFlag(b, After(b, calls, n - 1), calls[n - 1], kind);
      if SucceededAs(b, calls, n - 1, kind) {
        assert 0 <= n - 1 < n;
      }
    }
  }

  /** What was bound and started on is remembered unchanged. */
  lemma {:induction false} BindingsAreRemembered(b: Binding, calls: seq<Call>, i: nat, n: nat)
    requires i < n <= |calls|
    ensures SucceededAs(b, calls, i, BindKind) ==> After(b, calls, n).data == calls[i].op.data
    ensures SucceededAs(b, calls, i, StartKind) ==> After(b, calls, n).path == Some(calls[i].op.request.path)
  {
    if i < n - 1 {
      BindingsAreRemembered(b, calls, i, n - 1);
      FlagIsHistory(b, calls, n - 1, BindKind);
      FlagIsHistory(b, calls, n - 1, StartKind);
    }
  }

  /** Claim, data binding, workflow start, checkpoint claim and publication each succeed at most once in any run. */
  lemma EachSucceedsOnce(b: Binding, calls: seq<Call>, i: nat, j: nat, kind: Kind)
    requires SucceededAs(b, calls, i, kind) && SucceededAs(b, calls, j, kind)
    requires kind != CloseKind && kind != OtherKind
    ensures i == j
  {
    FlagIsHistory(b, calls, i, kind);
    FlagIsHistory(b, calls, j, kind);
    assert i < j ==> Happened(b, calls, j, kind);
    assert j < i ==> Happened(b, calls, i, kind);
  }

  /** Nothing but closing succeeds once the scope has been closed. */
  lemma NothingAfterClose(b: Binding, calls: seq<Call>, i: nat, j: nat)
    requires i < j < |calls| && SucceededAs(b, calls, i, CloseKind)
    ensures Succeeded(b, calls, j) ==> calls[j].op.Close?
  {
    FlagIsHistory(b, calls, j, CloseKind);
    assert Happened(b, calls, j, CloseKind);
  }

  /** A close always succeeds, and from then on the scope is closed. */
  lemma CloseSucceeds(b: Binding, calls: seq<Call>, j: nat)
    requires j < |calls| && calls[j].op.Close?
    ensures Succeeded(b, calls, j) && !After(b, calls, j + 1).live
  {
  }

  /** Some call before n bound exactly this data. */
  ghost predicate BoundTo(b: Binding, calls: seq<Call>, n: nat, data: Option<string>) {
    exists i :: 0 <= i < n && SucceededAs(b, calls, i, BindKind) && calls[i].op.data == data
  }

  /** Some call before n started the workflow on this path. */
  ghost predicate StartedOn(b: Binding, calls: seq<Call>, n: nat, path: string) {
    exists i :: 0 <= i < n && SucceededAs(b, calls, i, StartKind) && calls[i].op.request.path == path
  }

  lemma DataIsHistory(b: Binding, calls: seq<Call>, n: nat, data: Option<string>)
    requires n <= |calls|
    ensures BoundTo(b, calls, n, data) <==> data.Some? && After(b, calls, n).data == data
  {
    FlagIsHistory(b, calls, n, BindKind);
    forall i | 0 <= i < n && SucceededAs(b, calls, i, BindKind) ensures After(b, calls, n).data == calls[i].op.data {
      BindingsAreRemembered(b, calls, i, n);
    }
  }

  lemma PathIsHistory(b: Binding, calls: seq<Call>, n: nat, path: string)
    requires n <= |calls|
    ensures StartedOn(b, calls, n, path) <==> After(b, calls, n).started && After(b, calls, n).path == Some(path)
  {
    FlagIsHistory(b, calls, n, StartKind);
    forall i | 0 <= i < n && SucceededAs(b, calls, i, StartKind)
        ensures After(b, calls, n).path == Some(calls[i].op.request.path) {
      BindingsAreRemembered(b, calls, i, n);
    }
  }

  /** What every checked operation asks of the moment, and that the scope was not closed. */
  ghost predicate Open(b: Binding, calls: seq<Call>, j: nat)
    requires j < |calls|
  {
    var env := calls[j].env;
    && !Happened(b, calls, j, CloseKind)
    && env.caller.thread == b.owner.thread && env.confirmed && (b.root.Some? ==> env.rootUnchanged)
  }

  lemma ChecksAreHistory(b: Binding, calls: seq<Call>, j: nat)
    requires j < |calls|
    ensures Checks(b, After(b, calls, j), calls[j].env) <==> Open(b, calls, j)
  {
    FlagIsHistory(b, calls, j, CloseKind);
  }

  /** The job is admitted exactly once: to the owner, for the bound job, unforced, while the scope is open. */
  lemma ClaimIff(b: Binding, calls: seq<Call>, j: nat)
    requires j < |calls| && calls[j].op.Claim?
    ensures Succeeded(b, calls, j) <==>
            && Open(b, calls, j) && !Happened(b, calls, j, ClaimKind)
            && calls[j].env.caller == b.owner
            && calls[j].op == Claim(b.jobId, b.ticker, b.pipelineId, false)
  {
    ChecksAreHistory(b, calls, j);
    FlagIsHistory(b, calls, j, ClaimKind);
  }

  /** Data is bound exactly once, after the claim. */
  lemma BindIff(b: Binding, calls: seq<Call>, j: nat)
    requires j < |calls| && calls[j].op.Bind?
    ensures Succeeded(b, calls, j) <==>
            && Open(b, calls, j) && Happened(b, calls, j, ClaimKind) && !Happened(b, calls, j, BindKind)
            && calls[j].op.data.Some?
  {
    ChecksAreHistory(b, calls, j);
    FlagIsHistory(b, calls, j, ClaimKind);
    FlagIsHistory(b, calls, j, BindKind);
  }

  /** The request names the run's own thread and pipeline, and a checkpoint file that the controller owns. */
  predicate OwnRequest(b: Binding, request: Request) {
    && request.threadId == b.jobId + ":" + b.pipelineId && request.pipelineId == b.pipelineId
    && !request.ownCheckpointer && request.backend == "sqlite"
    && "/" <= request.path
  }

  /** The bound data may be read from the claim on, as often as asked. */
  lemma ReadIff(b: Binding, calls: seq<Call>, j: nat)
    requires j < |calls| && calls[j].op.ReadData?
    ensures Succeeded(b, calls, j) <==> Open(b, calls, j) && Happened(b, calls, j, ClaimKind)
  {
    ChecksAreHistory(b, calls, j);
    FlagIsHistory(b, calls, j, ClaimKind);
  }

  /** A request passes, and starts the workflow, exactly once: on the data that was bound after the claim. */
  lemma StartIff(b: Binding, calls: seq<Call>, j: nat)
    requires j < |calls| && (calls[j].op.Start? || calls[j].op.Validate?)
    ensures Succeeded(b, calls, j) <==>
            && Open(b, calls, j) && !Happened(b, calls, j, StartKind)
            && OwnRequest(b, calls[j].op.request)
            && Happened(b, calls, j, ClaimKind) && BoundTo(b, calls, j, calls[j].op.request.data)
  {
    ChecksAreHistory(b, calls, j);
    FlagIsHistory(b, calls, j, ClaimKind);
    FlagIsHistory(b, calls, j, StartKind);
    DataIsHistory(b, calls, j, calls[j].op.request.data);
  }

  /** A checkpoint is claimed exactly once, on the path and thread of the workflow that was started. */
  lemma CheckpointIff(b: Binding, calls: seq<Call>, j: nat)
    requires j < |calls| && calls[j].op.ClaimCheckpoint?
    ensures Succeeded(b, calls, j) <==>
            && Open(b, calls, j) && !Happened(b, calls, j, CheckpointKind)
            && calls[j].op.backend == "sqlite" && calls[j].op.threadId == b.jobId + ":" + b.pipelineId
            && StartedOn(b, calls, j, calls[j].op.path)
  {
    ChecksAreHistory(b, calls, j);
    FlagIsHistory(b, calls, j, CheckpointKind);
    PathIsHistory(b, calls, j, calls[j].op.path);
  }

  /**
   A report is published exactly once: by the owner, under the binding's own names, on
   exactly the data bound after the claim.
   */
  lemma PublishIff(b: Binding, calls: seq<Call>, j: nat)
    requires j < |calls| && calls[j].op.Publish?
    ensures Succeeded(b, calls, j) <==>
            && Open(b, calls, j) && !Happened(b, calls, j, PublishKind)
            && calls[j].env.caller == b.owner
            && var op := calls[j].op;
            && b.root == Some(op.outputDir) && op.filename == b.reportName
            && op.contextTicker == b.ticker && op.contextPipeline == b.pipelineId
            && Happened(b, calls, j, ClaimKind) && BoundTo(b, calls, j, op.contextData)
  {
    ChecksAreHistory(b, calls, j);
    FlagIsHistory(b, calls, j, ClaimKind);
    FlagIsHistory(b, calls, j, PublishKind);
    DataIsHistory(b, calls, j, calls[j].op.contextData);
  }

  /** Publication does not wait for a workflow: claim and binding alone admit it. */
  lemma PublishWithoutWorkflow(b: Binding, data: string)
    requires b.root.Some?
    ensures var env := Env(b.owner, true, true);
            var calls := [Call(Claim(b.jobId, b.ticker, b.pipelineId, false), env), Call(Bind(Some(data)), env),
                          Call(Publish(b.root.value, b.reportName, b.ticker, b.pipelineId, Some(data)), env)];
            SucceededAs(b, calls, 2, PublishKind) && !Happened(b, calls, 2, StartKind)
  {
    var env := Env(b.owner, true, true);
    var calls := [Call(Claim(b.jobId, b.ticker, b.pipelineId, false), env), Call(Bind(Some(data)), env),
                  Call(Publish(b.root.value, b.reportName, b.ticker, b.pipelineId, Some(data)), env)];
    assert After(b, calls, 0) == INITIAL;
    assert After(b, calls, 1) == INITIAL.(claimed := true);
    assert After(b, calls, 2) == INITIAL.(claimed := true, data := Some(data));
    FlagIsHistory(b, calls, 2, StartKind);
  }
}
