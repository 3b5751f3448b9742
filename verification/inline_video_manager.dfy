/**
 * The inline-video manager's buffer of pending commands per video element. Its flush mirrors the
 * canvas manager's but always reports a 2D context and hands the commands over unchanged. No
 * operation of the manager adds to the buffer; frames reach the callback from the frame sampler.
 */
module InlineVideoManagement {
  import opened Wrappers
  import opened SnapshotMirror
  import opened CanvasTypes
  import opened CanvasManagement

  class InlineVideoManager {
    /** `pendingVideoMutations` */
    var pending: map<NodeRef, seq<CanvasCommand>>
    /** The keys of `pending` in insertion order. */
    var order: seq<NodeRef>
    var frozen: bool
    var locked: bool
    /** Whether the constructor started the frame sampler (`initVideoFPSObserver`). */
    var samplerStarted: bool
    const mirror: Mirror
    /** Every argument handed to `mutationCb` by a flush, in order. */
    var emitted: seq<CanvasMutationParam>

    ghost predicate Valid()
      reads this
    {
      NoDups(order) && forall c :: c in pending <==> c in order
    }

    /** The sampler starts only when `inlineVideo` is set. */
    constructor(mirror: Mirror, inlineVideo: bool)
      ensures Valid()
      ensures this.mirror == mirror && pending == map[] && order == [] && emitted == []
      ensures samplerStarted == inlineVideo && !frozen && !locked
    {
      this.mirror := mirror;
      pending := map[];
      order := [];
      frozen := false;
      locked := false;
      emitted := [];
      samplerStarted := inlineVideo;
    }

    /** `reset`: every pending list is dropped. */
    method Reset()
      modifies this
      ensures Valid()
      ensures pending == map[] && order == []
      ensures frozen == old(frozen) && locked == old(locked) && emitted == old(emitted) && samplerStarted == old(samplerStarted)
    {
      pending := map[];
      order := [];
    }

    method Freeze()
      modifies this
      ensures frozen && locked == old(locked)
      ensures pending == old(pending) && order == old(order) && emitted == old(emitted) && samplerStarted == old(samplerStarted)
    {
      frozen := true;
    }

    method Unfreeze()
      modifies this
      ensures !frozen && locked == old(locked)
      ensures pending == old(pending) && order == old(order) && emitted == old(emitted) && samplerStarted == old(samplerStarted)
    {
      frozen := false;
    }

    method Lock()
      modifies this
      ensures locked && frozen == old(frozen)
      ensures pending == old(pending) && order == old(order) && emitted == old(emitted) && samplerStarted == old(samplerStarted)
    {
      locked := true;
    }

    method Unlock()
      modifies this
      ensures !locked && frozen == old(frozen)
      ensures pending == old(pending) && order == old(order) && emitted == old(emitted) && samplerStarted == old(samplerStarted)
    {
      locked := false;
    }

    /** `flushPendingCanvasMutationFor`: one 2D callback with the video's commands as they are, then its entry goes. */
    method FlushPendingCanvasMutationFor(video: NodeRef, id: int)
      requires Valid()
      modifies this
      ensures Valid()
      ensures old(frozen || locked || video !in pending || id == -1) ==>
        pending == old(pending) && order == old(order) && emitted == old(emitted)
      ensures !old(frozen || locked || video !in pending || id == -1) ==>
        emitted == old(emitted) + [CanvasMutationParam(id, Context2D, old(pending)[video])] &&
        pending == old(pending) - {video} && order == Restrict(old(order), pending.Keys)
      ensures frozen == old(frozen) && locked == old(locked) && samplerStarted == old(samplerStarted)
    {
      if frozen || locked {
        return;
      }
      if video !in pending || id == -1 {
        return;
      }
      var values := pending[video];
      emitted := emitted + [CanvasMutationParam(id, Context2D, values)];
      pending := pending - {video};
      order := Restrict(order, pending.Keys);
    }
  }

  /**
   * Flushing a video twice emits at most once: after a flush that emitted, the second flush finds
   * no pending list and changes nothing.
   */
  method FlushTwiceEmitsOnce(vm: InlineVideoManager, video: NodeRef, id: int)
    requires vm.Valid()
    modifies vm
    ensures |vm.emitted| <= |old(vm.emitted)| + 1
    ensures video !in old(vm.pending) ==> vm.emitted == old(vm.emitted)
    ensures video in old(vm.pending) && id != -1 && !old(vm.frozen) && !old(vm.locked) ==>
      vm.emitted == old(vm.emitted) + [CanvasMutationParam(id, Context2D, old(vm.pending)[video])] && video !in vm.pending
  {
    vm.FlushPendingCanvasMutationFor(video, id);
    vm.FlushPendingCanvasMutationFor(video, id);
  }
}
