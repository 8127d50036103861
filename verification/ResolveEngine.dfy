/** The resolve engine as the hook runs it: callbacks that set state and refs in place. A set
    takes effect at once; only the mirror of the status waits for a render and its effect. Each method
    is proved against the state machine of EngineModel. */
module ResolveEngine {
  import opened Options
  import opened Events
  import M = EngineModel
  import PaceModel
  import PaceQueue

  class Engine {
    const paceQueue: PaceQueue.Queue

    var status: M.Status
    var stage: int
    var completed: int
    var result: Option<Json>
    var error: Option<M.ResolveError>
    var maxStage: int
    var peerUri: Option<Json>
    var statusRef: M.Status

    // The page's side: the status of the last render, which that render's effect has closed over.
    var rendered: M.Status

    ghost function View(): M.Engine
      reads this
    {
      M.Engine(status, stage, completed, result, error, maxStage, peerUri, statusRef, rendered)
    }

    constructor (paceQueue: PaceQueue.Queue)
      ensures View() == M.START && this.paceQueue == paceQueue
    {
      this.paceQueue := paceQueue;
      status, stage, completed, result, error := M.Idle, -1, 0, None, None;
      maxStage, peerUri, statusRef, rendered := -1, None, M.Idle, M.Idle;
    }

    /** The pace queue's subscriber. */
    method OnEvent(ev: Event)
      modifies this
      ensures View() == M.OnEvent(old(View()), ev)
    {
      var idx := EventToStage(ev.ty);
      if ev.ty == PEER_URI_SEEN && ev.payload.Some? {
        peerUri := M.Field(ev.payload, "uri");
      }
      if IsErrorType(ev.ty) {
        var merged: Fields := if ev.payload.Some? then ev.payload.value else map[];
        if peerUri.Some? && Truthy(peerUri.value) {
          merged := merged["uri" := peerUri.value];
        }
        var message := if "err" in merged then Some(merged["err"]) else None;
        error := Some(M.ResolveError(ev.ty, message, Some(merged)));
        stage := -1;
        status := M.Failed;
        return;
      }
      if statusRef != M.Running { return; }
      if idx >= 0 && idx > maxStage {
        maxStage := idx;
        stage := idx;
        completed := idx;
      }
    }

    /** The pace queue's walking/idle subscriber. */
    method OnWalking(on: bool)
      modifies this`status
      ensures View() == M.OnWalking(old(View()), on)
    {
      if on && status != M.Done && status != M.Failed {
        status := M.Running;
      }
    }

    /** The effect of a render, which mirrors the status of that render. */
    method CommitMirror()
      modifies this`statusRef
      ensures View() == M.Commit(old(View()))
    {
      statusRef := rendered;
    }

    /** A render; the effect of the one before it has run by then. */
    method Render()
      modifies this`statusRef, this`rendered
      ensures View() == M.Render(old(View()))
    {
      CommitMirror();
      rendered := status;
    }

    /** The synchronous part of a run; the request's outcome arrives later. */
    method Run()
      modifies this
      ensures View() == M.Run(old(View()))
    {
      status, stage, completed, result, error := M.Running, -1, 0, None, None;
      maxStage, peerUri := -1, None;
    }

    method ResponseOk(data: Json)
      modifies this
      ensures View() == M.HttpOk(old(View()), data)
    {
      result := Some(data);
      status := M.Done;
      stage := -1;
      completed := 6;
    }

    method ResponseFailed(message: string)
      modifies this`error, this`status
      ensures View() == M.HttpFail(old(View()), message)
    {
      if error.None? || error.value.payload.None? {
        error := Some(M.ResolveError("http.error", Some(Str(message)), None));
      }
      status := M.Failed;
    }

    method RequestFailed(message: string)
      modifies this`error, this`status
      ensures View() == M.NetworkFail(old(View()), message)
    {
      status := M.Failed;
      error := Some(M.ResolveError("network.error", Some(Str(message)), None));
    }

    /** A reset also drops whatever the pace queue holds. */
    method Reset()
      modifies this, paceQueue
      ensures View() == M.Reset(old(View()))
      ensures paceQueue.View() == PaceModel.Flush(old(paceQueue.View())) && paceQueue.out == old(paceQueue.out)
    {
      paceQueue.PreemptAndFlush();
      status, stage, completed, result, error := M.Idle, -1, 0, None, None;
      maxStage, peerUri := -1, None;
    }
  }
}
