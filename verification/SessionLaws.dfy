/** What becomes of one request on the desktop, step by step: who may run, what is answered, and when its identity is free again. */
module SessionLaws {
  import opened Common
  import opened ResponseLine
  import opened DesktopSession
  import Records = ActionRecords

  /** An error or busy answer in the router's own words. */
  predicate Says(r: Response, request: Request, code: string, msg: Text) {
    r == Response(request.actionId, request.execId, Records.Ascii(code), msg, Records.Ascii("null"))
  }

  /** The handler's own response goes out if it names the request; everything else is an error that says what went wrong. */
  lemma RoutedMeans(request: Request, handled: Handled)
    ensures match handled
            case Replied(r) =>
              if r.actionId == request.actionId && r.execId == request.execId then Routed(request, handled) == r
              else Says(Routed(request, handled), request, "ERROR", Records.Ascii("handler returned mismatched response"))
            case Raised => Says(Routed(request, handled), request, "ERROR", Records.Ascii("action handler failed"))
            case NoHandler => Says(Routed(request, handled), request, "ERROR", Records.Ascii("unknown action: ") + request.actionId)
  {}

  /** A request whose identity is taken is told so. */
  lemma BusyMeans(request: Request)
    ensures Says(Refused(request, AlreadyActive), request, "BUSY", Records.Ascii("request already active"))
  {}

  /** The task has its answer and waits for its turn to send it. */
  predicate Answers(t: Task, t': Task, owns: bool, reply: Response) {
    t'.request == t.request && t'.owns == owns && t'.reply == reply && t'.phase == Waiting
  }

  ghost predicate OnlyTask(w: World, w': World, i: nat) {
    |w'.tasks| == |w.tasks| && w'.wire == w.wire && w'.locked == w.locked && forall k :: 0 <= k < |w.tasks| && k != i ==> w'.tasks[k] == w.tasks[k]
  }

  /**
   A request starts: refused as busy, without its handler, if another of the same identity is not over yet; otherwise it owns its
   identity, and its handler answers at once, goes on, or takes the runner if that is free.
   */
  lemma StartMeans(ops: seq<Op>, i: nat, first: First)
    requires i < |Run(ops).tasks| && Run(ops).tasks[i].phase == Created
    ensures var w, w' := Run(ops), Step(Run(ops), Start(i, first));
            var t, t' := w.tasks[i], w'.tasks[i];
            && OnlyTask(w, w', i)
            && if exists k :: 0 <= k < |w.tasks| && Active(w.tasks[k]) && w.tasks[k].request.execId == t.request.execId then
                 Answers(t, t', false, t'.reply) && Says(t'.reply, t.request, "BUSY", Records.Ascii("request already active"))
                 && w'.entered == w.entered && w'.busy == w.busy
               else
                 && t'.owns && w'.entered == w.entered + [i]
                 && match first
                    case AtOnce(handled) => Answers(t, t', true, Routed(t.request, handled)) && w'.busy == w.busy
                    case Suspends => t'.phase == Handling(false) && w'.busy == w.busy
                    case WantsRunner(otherwise) =>
                      if exists k :: 0 <= k < |w.tasks| && HasRunner(w.tasks[k])
                      then Answers(t, t', true, Routed(t.request, otherwise)) && w'.busy
                      else t'.phase == Handling(true) && w'.busy
  {
    Concurrency(ops);
    StartStep(Run(ops), i, first);
    BusyMeans(Run(ops).tasks[i].request);
  }

  lemma StartStep(w: World, i: nat, first: First)
    requires Inv(w) && i < |w.tasks| && w.tasks[i].phase == Created
    ensures var t, w' := w.tasks[i], Step(w, Start(i, first));
            && OnlyTask(w, w', i)
            && (t.request.execId in w.session.pending <==>
                  exists k :: 0 <= k < |w.tasks| && Active(w.tasks[k]) && w.tasks[k].request.execId == t.request.execId)
            && if t.request.execId in w.session.pending then
                 Answers(t, w'.tasks[i], false, Refused(t.request, AlreadyActive)) && w'.entered == w.entered && w'.busy == w.busy
               else
                 && w'.tasks[i].owns && w'.entered == w.entered + [i]
                 && match first
                    case AtOnce(handled) => Answers(t, w'.tasks[i], true, Routed(t.request, handled)) && w'.busy == w.busy
                    case Suspends => w'.tasks[i].phase == Handling(false) && w'.busy == w.busy
                    case WantsRunner(otherwise) =>
                      if w.busy then Answers(t, w'.tasks[i], true, Routed(t.request, otherwise)) && w'.busy
                      else w'.tasks[i].phase == Handling(true) && w'.busy
  {
    assert !w.session.connected ==> AllDone(w.tasks);
  }

  /** The handler comes back: its answer is routed, and the runner, if it had it, is free. */
  lemma ResumeMeans(w: World, i: nat, handled: Handled)
    requires i < |w.tasks| && w.tasks[i].phase.Handling?
    ensures var w' := Step(w, Resume(i, handled));
            && OnlyTask(w, w', i) && Answers(w.tasks[i], w'.tasks[i], w.tasks[i].owns, Routed(w.tasks[i].request, handled))
            && w'.busy == (w.busy && !w.tasks[i].phase.runner) && w'.session == w.session
  {}

  /** The task is over: its identity is free if it was its own, and so are the lock and the runner if it had them. */
  predicate Frees(w: World, w': World, i: nat)
    requires i < |w.tasks|
  {
    var t := w.tasks[i];
    && i < |w'.tasks| && w'.tasks[i].phase.Done? && w'.tasks[i].reply == t.reply && w'.wire == w.wire
    && w'.session.pending == (if t.owns then w.session.pending - {t.request.execId} else w.session.pending)
    && (t.phase.Sending? ==> !w'.locked) && (HasRunner(t) ==> !w'.busy)
  }

  lemma EndFrees(w: World, i: nat, delivered: bool, w': World)
    requires Inv(w) && i < |w.tasks|
    requires w'.tasks == w.tasks[i := w.tasks[i].(phase := Done(delivered))] && w'.wire == w.wire
    requires w'.session == if w.tasks[i].owns then Completed(w.session, w.tasks[i].request.execId).0 else w.session
    requires (w.tasks[i].phase.Sending? ==> !w'.locked) && (HasRunner(w.tasks[i]) ==> !w'.busy) && !w.tasks[i].phase.Done?
    ensures Frees(w, w', i)
  {
    PendingOf(w, i);
  }

  /** A whole line sent ends the task, and so does a send the transport fails. */
  lemma FinishMeans(w: World, i: nat)
    requires Inv(w) && i < |w.tasks| && w.tasks[i].phase.Sending? && w.tasks[i].phase.count == Size(w.tasks[i])
    ensures Frees(w, Step(w, Finish(i)), i)
  {
    EndFrees(w, i, true, Step(w, Finish(i)));
  }

  lemma FailMeans(w: World, i: nat)
    requires Inv(w) && i < |w.tasks| && w.tasks[i].phase.Sending?
    ensures Frees(w, Step(w, Fail(i)), i)
  {
    EndFrees(w, i, false, Step(w, Fail(i)));
  }

  /** With the lock free, a task whose answer cannot be encoded is over as soon as it tries; any other has the lock and its line. */
  lemma AcquireMeans(w: World, i: nat)
    requires Inv(w) && i < |w.tasks| && w.tasks[i].phase.Waiting? && !w.locked
    ensures var t, w' := w.tasks[i], Step(w, Acquire(i));
            if Encode(t.reply).Encoded? then w'.locked && w'.tasks[i] == t.(line := Line(t.reply), phase := Sending(0)) && w'.session == w.session
            else Frees(w, w', i) && !w'.locked
  {
    PendingOf(w, i);
  }

  /** Cancelling ends a task at once, except a handler that still has to wind down, which keeps its identity and the runner until then. */
  lemma CancelMeans(w: World, i: nat)
    requires Inv(w) && i < |w.tasks|
    ensures var t, w' := w.tasks[i], Step(w, Cancel(i));
            match t.phase
            case Handling(runner) => w'.tasks[i].phase == Cleanup(runner) && w'.session == w.session && w'.busy == w.busy
            case Cleanup(_) => w' == w
            case Done(_) => w' == w
            case _ => Frees(w, w', i)
  {
    PendingOf(w, i);
  }

  lemma CleanedUpMeans(w: World, i: nat)
    requires Inv(w) && i < |w.tasks| && w.tasks[i].phase.Cleanup?
    ensures Frees(w, Step(w, CleanedUp(i)), i)
  {
    PendingOf(w, i);
  }

  lemma PendingOf(w: World, i: nat)
    requires Inv(w) && i < |w.tasks|
    ensures Active(w.tasks[i]) ==> w.tasks[i].request.execId in w.session.pending
  {}
}
