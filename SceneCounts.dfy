/** How many GL calls of each kind a frame issues. Each straight run of calls is counted by a
    lemma of its own; the lemmas for the branching steps only put those counts together. */
module SceneCounts {
  import opened OpenGl
  import opened Scene

  /** The calls of each kind that a resize issues up to and including the completeness query:
      a framebuffer is created only when none is cached, a texture and a renderbuffer always,
      the old texture and renderbuffer are deleted only when their handles are positive, and
      the status is queried once. */
  function ResizeEvents(c: RenderCache, e: Event): (n: nat) {
    match e
    case Created(k) => if k == FramebufferKind then (if c.fbo == 0 then 1 else 0) else 1
    case Deleted(k) =>
      if k == TextureKind then (if c.texColor > 0 then 1 else 0)
      else if k == RenderbufferKind then (if c.rbo > 0 then 1 else 0)
      else 0
    case StatusQueried => 1
    case Cleared => 0
    case Drawn => 0
  }

  /** The calls of each kind that drawing the scene issues: two clears and one draw call. */
  function Painted(e: Event): (n: nat) {
    if e == Cleared then 2 else if e == Drawn then 1 else 0
  }

  /** The frame got past the check that follows binding the target, so it issued the two
      clears and the draw call. */
  predicate Drew(o: Outcome) {
    o == Completed || o == Threw(GlError(AfterDraw)) ||
    o == Threw(GlError(AfterRestore)) || o == Threw(GlError(AfterPublish))
  }

  lemma GetErrorCounts(g: GlState, errorOf: ErrorOracle, e: Event)
    ensures Occurrences(g.GetError(errorOf).log, e) == Occurrences(g.log, e)
  {
    OccurrencesSnoc(g.log, Call.GetError(g.PendingError(errorOf)), e);
  }

  lemma BindCounts(g: GlState, fb: int, rb: int, e: Event)
    ensures Occurrences(g.BindFramebuffer(fb).BindRenderbuffer(rb).log, e) == Occurrences(g.log, e)
  {
    OccurrencesAppend();
  }

  lemma StatusCounts(g: GlState, complete: CompletenessOracle, e: Event)
    ensures Occurrences(g.CheckFramebufferStatus(complete).log, e)
              == Occurrences(g.log, e) + (if e == StatusQueried then 1 else 0)
  {
    OccurrencesAppend();
  }

  lemma TargetCallsCounts(c: RenderCache, next: int, e: Event)
    ensures Occurrences(TargetCalls(c, next), e) == (if e == Created(FramebufferKind) && c.fbo == 0 then 1 else 0)
  {
    var fbo := if c.fbo == 0 then next else c.fbo;
    var s0: seq<Call> := [];
    var s1 := if c.fbo == 0 then s0 + [Call.GenFramebuffer(next)] else s0;
    var s2 := if c.fbo == 0 then s1 + [Call.BindFramebuffer(next)] else s1;
    if c.fbo == 0 {
      OccurrencesSnoc(s0, Call.GenFramebuffer(next), e);
      OccurrencesSnoc(s1, Call.BindFramebuffer(next), e);
    }
    OccurrencesSnoc(s2, Call.BindFramebuffer(fbo), e);
    assert TargetCalls(c, next) == s2 + [Call.BindFramebuffer(fbo)];
  }

  lemma ColorCallsCounts(t: int, name: int, panel: Size, e: Event)
    ensures Occurrences(ColorCalls(t, name, panel), e)
              == (if e == Deleted(TextureKind) && t > 0 then 1 else 0) + (if e == Created(TextureKind) then 1 else 0)
  {
    var deleted := if t > 0 then [Call.DeleteTexture(t)] else [];
    var created := [Call.GenTexture(name), Call.BindTexture(name), Call.TexImage2D(panel), Call.FramebufferTexture2D(name)];
    assert ColorCalls(t, name, panel) == deleted + created;
    OccurrencesConcat(deleted, created, e);
    NewTextureCallsCounts(name, panel, e);
    if t > 0 {
      SingleCounts(Call.DeleteTexture(t), e);
    }
  }

  lemma NewTextureCallsCounts(name: int, panel: Size, e: Event)
    ensures Occurrences([Call.GenTexture(name), Call.BindTexture(name), Call.TexImage2D(panel), Call.FramebufferTexture2D(name)], e)
              == (if e == Created(TextureKind) then 1 else 0)
  {
    var s1 := [Call.GenTexture(name)];
    var s2 := s1 + [Call.BindTexture(name)];
    var s3 := s2 + [Call.TexImage2D(panel)];
    SingleCounts(Call.GenTexture(name), e);
    OccurrencesSnoc(s1, Call.BindTexture(name), e);
    OccurrencesSnoc(s2, Call.TexImage2D(panel), e);
    OccurrencesSnoc(s3, Call.FramebufferTexture2D(name), e);
    assert s3 + [Call.FramebufferTexture2D(name)]
             == [Call.GenTexture(name), Call.BindTexture(name), Call.TexImage2D(panel), Call.FramebufferTexture2D(name)];
  }

  lemma DepthCallsCounts(r: int, name: int, panel: Size, e: Event)
    ensures Occurrences(DepthCalls(r, name, panel), e)
              == (if e == Deleted(RenderbufferKind) && r > 0 then 1 else 0) + (if e == Created(RenderbufferKind) then 1 else 0)
  {
    var deleted := if r > 0 then [Call.DeleteRenderbuffer(r)] else [];
    var created := [Call.GenRenderbuffer(name), Call.BindRenderbuffer(name), Call.RenderbufferStorage(panel),
                    Call.FramebufferRenderbuffer(name)];
    assert DepthCalls(r, name, panel) == deleted + created;
    OccurrencesConcat(deleted, created, e);
    NewRenderbufferCallsCounts(name, panel, e);
    if r > 0 {
      SingleCounts(Call.DeleteRenderbuffer(r), e);
    }
  }

  lemma NewRenderbufferCallsCounts(name: int, panel: Size, e: Event)
    ensures Occurrences([Call.GenRenderbuffer(name), Call.BindRenderbuffer(name), Call.RenderbufferStorage(panel),
                         Call.FramebufferRenderbuffer(name)], e)
              == (if e == Created(RenderbufferKind) then 1 else 0)
  {
    var s1 := [Call.GenRenderbuffer(name)];
    var s2 := s1 + [Call.BindRenderbuffer(name)];
    var s3 := s2 + [Call.RenderbufferStorage(panel)];
    SingleCounts(Call.GenRenderbuffer(name), e);
    OccurrencesSnoc(s1, Call.BindRenderbuffer(name), e);
    OccurrencesSnoc(s2, Call.RenderbufferStorage(panel), e);
    OccurrencesSnoc(s3, Call.FramebufferRenderbuffer(name), e);
    assert s3 + [Call.FramebufferRenderbuffer(name)]
             == [Call.GenRenderbuffer(name), Call.BindRenderbuffer(name), Call.RenderbufferStorage(panel),
                 Call.FramebufferRenderbuffer(name)];
  }

  lemma SingleCounts(c: Call, e: Event)
    ensures Occurrences([c], e) == (if c.Is(e) then 1 else 0)
  {
    OccurrencesSnoc([], c, e);
    assert [] + [c] == [c];
  }

  lemma ReallocateCountsSum(c: RenderCache, g: GlState, panel: Size, e: Event)
    ensures Occurrences(Reallocate(c, g, panel).1.log, e)
              == Occurrences(g.log, e)
                 + (if e == Created(FramebufferKind) && c.fbo == 0 then 1 else 0)
                 + (if e == Deleted(TextureKind) && c.texColor > 0 then 1 else 0)
                 + (if e == Created(TextureKind) then 1 else 0)
                 + (if e == Deleted(RenderbufferKind) && c.rbo > 0 then 1 else 0)
                 + (if e == Created(RenderbufferKind) then 1 else 0)
  {
    ReallocateLog(c, g, panel);
    var (c1, g1) := Reallocate(c, g, panel);
    var target := TargetCalls(c, g.nextName);
    var color := ColorCalls(c.texColor, c1.texColor, panel);
    var depth := DepthCalls(c.rbo, c1.rbo, panel);
    OccurrencesConcat(g.log + target + color, depth, e);
    OccurrencesConcat(g.log + target, color, e);
    OccurrencesConcat(g.log, target, e);
    TargetCallsCounts(c, g.nextName, e);
    ColorCallsCounts(c.texColor, c1.texColor, panel, e);
    DepthCallsCounts(c.rbo, c1.rbo, panel, e);
  }

  /** The reallocation issues every call that ResizeEvents lists except the status query. */
  lemma ReallocateCounts(c: RenderCache, g: GlState, panel: Size, e: Event)
    ensures Occurrences(Reallocate(c, g, panel).1.log, e) + (if e == StatusQueried then 1 else 0)
              == Occurrences(g.log, e) + ResizeEvents(c, e)
  {
    ReallocateCountsSum(c, g, panel, e);
  }

  lemma DrawSceneCounts(g: GlState, panel: Size, e: Event)
    ensures Occurrences(DrawScene(g, panel).log, e) == Occurrences(g.log, e) + Painted(e)
  {
    OccurrencesAppend();
  }

  lemma RestoreWindowCounts(g: GlState, client: Size, e: Event)
    ensures Occurrences(RestoreWindow(g, client).log, e) == Occurrences(g.log, e)
  {
    OccurrencesAppend();
  }

  lemma PublishChainCounts(g: GlState, errorOf: ErrorOracle, t: int, e: Event)
    ensures Occurrences(g.GetError(errorOf).BindTexture(t).GetError(errorOf).log, e) == Occurrences(g.log, e)
  {
    OccurrencesAppend();
  }

  lemma PublishCounts(c: RenderCache, g: GlState, errorOf: ErrorOracle, e: Event)
    ensures Occurrences(Publish(c, g, errorOf).gl.log, e) == Occurrences(g.log, e)
  {
    GetErrorCounts(g, errorOf, e);
    if g.PendingError(errorOf) == NoError {
      assert Publish(c, g, errorOf).gl == g.GetError(errorOf).BindTexture(c.texColor).GetError(errorOf);
      PublishChainCounts(g, errorOf, c.texColor, e);
    }
  }

  lemma LeaveTargetCounts(c: RenderCache, g: GlState, client: Size, errorOf: ErrorOracle, e: Event)
    ensures Occurrences(LeaveTarget(c, g, client, errorOf).gl.log, e) == Occurrences(g.log, e)
  {
    GetErrorCounts(g, errorOf, e);
    if g.PendingError(errorOf) == NoError {
      RestoreWindowCounts(g.GetError(errorOf), client, e);
      PublishCounts(c, RestoreWindow(g.GetError(errorOf), client), errorOf, e);
    }
  }

  /** Drawing and publishing create, delete and query nothing; they clear twice and draw once
      unless the check right after binding throws. */
  lemma RenderCounts(c: RenderCache, g: GlState, panel: Size, client: Size, errorOf: ErrorOracle, e: Event)
    ensures var r := Render(c, g, panel, client, errorOf);
            Occurrences(r.gl.log, e) == Occurrences(g.log, e) + (if Drew(r.outcome) then Painted(e) else 0)
  {
    GetErrorCounts(g, errorOf, e);
    if g.PendingError(errorOf) == NoError {
      DrawSceneCounts(g.GetError(errorOf), panel, e);
      LeaveTargetCounts(c, DrawScene(g.GetError(errorOf), panel), client, errorOf, e);
    }
  }

  lemma ResizeCounts(c: RenderCache, g: GlState, panel: Size, client: Size,
                     errorOf: ErrorOracle, complete: CompletenessOracle, e: Event)
    ensures var r := Resize(c, g, panel, client, errorOf, complete);
            Occurrences(r.gl.log, e)
              == Occurrences(g.log, e) + ResizeEvents(c, e) + (if Drew(r.outcome) then Painted(e) else 0)
  {
    var (c1, g1) := Reallocate(c, g, panel);
    ReallocateCounts(c, g, panel, e);
    StatusCounts(g1, complete, e);
    RenderCounts(c1, g1.CheckFramebufferStatus(complete), panel, client, errorOf, e);
  }

  /** The calls one frame issues, by kind: the resize's calls exactly when the entry check
      passes and the size changed, and the two clears and the draw call exactly when the frame
      got as far as drawing. */
  lemma FrameCounts(c: RenderCache, g: GlState, panel: Size, client: Size,
                    errorOf: ErrorOracle, complete: CompletenessOracle, e: Event)
    ensures var r := Frame(c, g, panel, client, errorOf, complete);
            Occurrences(r.gl.log, e)
              == Occurrences(g.log, e)
                 + (if g.PendingError(errorOf) == NoError && c.fboSize != panel then ResizeEvents(c, e) else 0)
                 + (if Drew(r.outcome) then Painted(e) else 0)
  {
    var checked := g.GetError(errorOf);
    GetErrorCounts(g, errorOf, e);
    if g.PendingError(errorOf) == NoError {
      if c.fboSize != panel {
        ResizeCounts(c, checked, panel, client, errorOf, complete, e);
      } else {
        BindCounts(checked, c.fbo, c.rbo, e);
        RenderCounts(c, checked.BindFramebuffer(c.fbo).BindRenderbuffer(c.rbo), panel, client, errorOf, e);
      }
    }
  }
}
