/** What DrawViewportWindow and Dispose promise about the render target's resources: when
    the attachments are reallocated, in which order old objects are released, that the
    framebuffer is created once, that nothing leaks across a resize, what a failed
    completeness test prevents, and the state a finished frame leaves behind. */
module SceneProperties {
  import opened OpenGl
  import opened Scene
  import opened SceneCounts

  // ---------------------------------------------------------------------------------------
  // One frame
  // ---------------------------------------------------------------------------------------

  /** With the cached size unchanged, a frame keeps the cached fields and every object, and
      creates, deletes and queries nothing. */
  lemma SizeUnchangedAllocatesNothing(c: RenderCache, g: GlState, panel: Size, client: Size,
                                      errorOf: ErrorOracle, complete: CompletenessOracle)
    requires c.fboSize == panel
    ensures var r := Frame(c, g, panel, client, errorOf, complete);
            r.cache == c && Objects(r.gl) == Objects(g) &&
            forall e: Event :: Painted(e) == 0 ==> Occurrences(r.gl.log, e) == Occurrences(g.log, e)
  {
    var r := Frame(c, g, panel, client, errorOf, complete);
    var checked := g.GetError(errorOf);
    if g.PendingError(errorOf) == NoError {
      RenderKeepsObjects(c, checked.BindFramebuffer(c.fbo).BindRenderbuffer(c.rbo), panel, client, errorOf);
    }
    forall e: Event | Painted(e) == 0
      ensures Occurrences(r.gl.log, e) == Occurrences(g.log, e)
    {
      FrameCounts(c, g, panel, client, errorOf, complete, e);
    }
  }

  /** With a new size (and the entry check passed), a frame records the size, keeps the
      framebuffer if there is one and creates it otherwise, and replaces the colour texture and
      the depth renderbuffer by new objects of the new size attached to it; no other object
      changes. This holds however the frame ends, including when the completeness test fails. */
  lemma SizeChangeReallocates(c: RenderCache, g: GlState, panel: Size, client: Size,
                              errorOf: ErrorOracle, complete: CompletenessOracle)
    requires g.Valid() && Owns(c, g)
    requires g.PendingError(errorOf) == NoError && c.fboSize != panel
    ensures var r := Frame(c, g, panel, client, errorOf, complete);
            r.cache.fboSize == panel &&
            (c.fbo != 0 ==> r.cache.fbo == c.fbo) &&
            (c.fbo == 0 ==> r.cache.fbo !in g.framebuffers) &&
            r.cache.texColor !in g.textures && r.cache.rbo !in g.renderbuffers &&
            r.gl.framebuffers == g.framebuffers[r.cache.fbo := Attachments(r.cache.texColor, r.cache.rbo)] &&
            r.gl.textures == (g.textures - {c.texColor})[r.cache.texColor := panel] &&
            r.gl.renderbuffers == (g.renderbuffers - {c.rbo})[r.cache.rbo := panel]
  {
    var checked := g.GetError(errorOf);
    ReallocateReplaces(c, checked, panel);
    ResizeObjects(c, checked, panel, client, errorOf, complete);
  }

  /** Given a passing entry check, the frame creates a colour texture, and likewise a depth
      renderbuffer, if and only if the measured size differs from the cached one, and the
      texture it publishes changes under the same condition. */
  lemma ReallocatesIffSizeChanged(c: RenderCache, g: GlState, panel: Size, client: Size,
                                  errorOf: ErrorOracle, complete: CompletenessOracle)
    requires g.Valid() && Owns(c, g) && g.PendingError(errorOf) == NoError
    ensures var r := Frame(c, g, panel, client, errorOf, complete);
            (Occurrences(r.gl.log, Created(TextureKind)) > Occurrences(g.log, Created(TextureKind)) <==>
               c.fboSize != panel) &&
            (Occurrences(r.gl.log, Created(RenderbufferKind)) > Occurrences(g.log, Created(RenderbufferKind)) <==>
               c.fboSize != panel) &&
            (r.cache.texColor != c.texColor <==> c.fboSize != panel)
  {
    FrameCounts(c, g, panel, client, errorOf, complete, Created(TextureKind));
    FrameCounts(c, g, panel, client, errorOf, complete, Created(RenderbufferKind));
    var checked := g.GetError(errorOf);
    if c.fboSize == panel {
      RenderKeepsObjects(c, checked.BindFramebuffer(c.fbo).BindRenderbuffer(c.rbo), panel, client, errorOf);
    } else {
      ResizeNewTexture(c, checked, panel, client, errorOf, complete);
    }
  }

  /** A resize always caches a new colour texture. */
  lemma ResizeNewTexture(c: RenderCache, g: GlState, panel: Size, client: Size,
                         errorOf: ErrorOracle, complete: CompletenessOracle)
    requires g.Valid() && Owns(c, g)
    ensures Resize(c, g, panel, client, errorOf, complete).cache.texColor != c.texColor
  {
    ReallocateReplaces(c, g, panel);
    ResizeObjects(c, g, panel, client, errorOf, complete);
  }

  /** Drawing and publishing only append to the log; a completed render has drawn into the
      framebuffer that was bound when it began, with the panel-sized viewport, and ends on the
      default framebuffer with the window's viewport and the colour texture bound and shown.
      A render never ends in IncompleteFramebuffer. */
  lemma RenderFacts(c: RenderCache, g: GlState, panel: Size, client: Size, errorOf: ErrorOracle)
    ensures var r := Render(c, g, panel, client, errorOf);
            r.cache == c && g.log <= r.gl.log && r.outcome != Threw(IncompleteFramebuffer) &&
            (r.outcome == Completed ==>
               r.gl.boundFramebuffer == 0 && r.gl.viewport == Rect(0, 0, client.x, client.y) &&
               r.gl.boundTexture == c.texColor && r.shown == Some(c.texColor) &&
               |g.log| + 5 < |r.gl.log| &&
               r.gl.log[|g.log| + 5] == Call.DrawArrays(g.boundFramebuffer, Rect(0, 0, panel.x, panel.y)))
  {
    if g.PendingError(errorOf) == NoError {
      var d := DrawScene(g.GetError(errorOf), panel);
      DrawSceneLog(g.GetError(errorOf), panel);
      LeaveTargetFacts(c, d, client, errorOf);
    }
  }

  /** From the check after drawing to the end of the frame. */
  lemma LeaveTargetFacts(c: RenderCache, drawn: GlState, client: Size, errorOf: ErrorOracle)
    ensures var r := LeaveTarget(c, drawn, client, errorOf);
            r.cache == c && drawn.log <= r.gl.log && r.outcome != Threw(IncompleteFramebuffer) &&
            (r.outcome == Completed ==>
               r.gl.boundFramebuffer == 0 && r.gl.viewport == Rect(0, 0, client.x, client.y) &&
               r.gl.boundTexture == c.texColor && r.shown == Some(c.texColor))
  {
    if drawn.PendingError(errorOf) == NoError {
      PublishFacts(c, RestoreWindow(drawn.GetError(errorOf), client), errorOf);
    }
  }

  /** From the check after restoring the window to the end of the frame. */
  lemma PublishFacts(c: RenderCache, restored: GlState, errorOf: ErrorOracle)
    ensures var r := Publish(c, restored, errorOf);
            r.cache == c && restored.log <= r.gl.log && r.outcome != Threw(IncompleteFramebuffer) &&
            (r.outcome == Completed ==>
               r.gl.boundFramebuffer == restored.boundFramebuffer && r.gl.viewport == restored.viewport &&
               r.gl.boundTexture == c.texColor && r.shown == Some(c.texColor))
  {
  }

  lemma DrawSceneLog(g: GlState, panel: Size)
    ensures var d := DrawScene(g, panel);
            g.log <= d.log && |d.log| == |g.log| + 5 &&
            d.log[|g.log| + 4] == Call.DrawArrays(g.boundFramebuffer, Rect(0, 0, panel.x, panel.y))
  {
  }

  /** On a resize the previous colour texture is deleted by the call just before the one that
      creates its replacement, and likewise for the depth renderbuffer, however the frame
      ends. */
  lemma OldAttachmentsDeletedFirst(c: RenderCache, g: GlState, panel: Size, client: Size,
                                   errorOf: ErrorOracle, complete: CompletenessOracle)
    requires g.PendingError(errorOf) == NoError && c.fboSize != panel
    ensures var r := Frame(c, g, panel, client, errorOf, complete);
            (c.texColor > 0 ==>
               exists i :: |g.log| <= i < |r.gl.log| - 1 &&
                 r.gl.log[i] == Call.DeleteTexture(c.texColor) && r.gl.log[i + 1] == Call.GenTexture(r.cache.texColor)) &&
            (c.rbo > 0 ==>
               exists i :: |g.log| <= i < |r.gl.log| - 1 &&
                 r.gl.log[i] == Call.DeleteRenderbuffer(c.rbo) && r.gl.log[i + 1] == Call.GenRenderbuffer(r.cache.rbo))
  {
    var r := Frame(c, g, panel, client, errorOf, complete);
    var checked := g.GetError(errorOf);
    var (c1, g1) := Reallocate(c, checked, panel);
    ResizeExtendsLog(c, checked, panel, client, errorOf, complete);
    ReallocateDeletesFirst(c, checked, panel);
    assert r.cache == c1 && g1.log <= r.gl.log;
    var i := |checked.log| + |TargetCalls(c, checked.nextName)|;
    var j := i + |ColorCalls(c.texColor, c1.texColor, panel)|;
    assert r.gl.log[i] == g1.log[i] && r.gl.log[i + 1] == g1.log[i + 1];
    assert r.gl.log[j] == g1.log[j] && r.gl.log[j + 1] == g1.log[j + 1];
  }

  /** The same within the reallocation's own calls. */
  lemma ReallocateDeletesFirst(c: RenderCache, g: GlState, panel: Size)
    ensures var (c1, g1) := Reallocate(c, g, panel);
            var i := |g.log| + |TargetCalls(c, g.nextName)|;
            var j := i + |ColorCalls(c.texColor, c1.texColor, panel)|;
            j + 1 < |g1.log| &&
            (c.texColor > 0 ==> g1.log[i] == Call.DeleteTexture(c.texColor) && g1.log[i + 1] == Call.GenTexture(c1.texColor)) &&
            (c.rbo > 0 ==> g1.log[j] == Call.DeleteRenderbuffer(c.rbo) && g1.log[j + 1] == Call.GenRenderbuffer(c1.rbo))
  {
    ReallocateLog(c, g, panel);
    var (c1, g1) := Reallocate(c, g, panel);
    var pre := g.log + TargetCalls(c, g.nextName);
    var color := ColorCalls(c.texColor, c1.texColor, panel);
    var depth := DepthCalls(c.rbo, c1.rbo, panel);
    FirstTwoAt(g1.log, pre, color, depth);
    FirstTwoAt(g1.log, pre + color, depth, []);
  }

  /** The first two calls of a block of the log sit at the block's offset. */
  lemma FirstTwoAt(log: seq<Call>, pre: seq<Call>, block: seq<Call>, post: seq<Call>)
    requires log == pre + block + post && 2 <= |block|
    ensures |pre| + 1 < |log| && log[|pre|] == block[0] && log[|pre| + 1] == block[1]
  {
  }

  /** A resizing frame only appends to the reallocation's log, and caches what the
      reallocation cached. */
  lemma ResizeExtendsLog(c: RenderCache, g: GlState, panel: Size, client: Size,
                         errorOf: ErrorOracle, complete: CompletenessOracle)
    ensures var r := Resize(c, g, panel, client, errorOf, complete);
            r.cache == Reallocate(c, g, panel).0 && Reallocate(c, g, panel).1.log <= r.gl.log
  {
    var (c1, g1) := Reallocate(c, g, panel);
    RenderFacts(c1, g1.CheckFramebufferStatus(complete), panel, client, errorOf);
  }

  /** Given a passing entry check, the frame throws IncompleteFramebuffer exactly when the
      size changed and the driver rejects a framebuffer whose two attachments both have the
      new size; it then has recorded the new size, drawn nothing and handed nothing to the
      GUI. */
  lemma IncompleteThrowsBeforeDrawing(c: RenderCache, g: GlState, panel: Size, client: Size,
                                      errorOf: ErrorOracle, complete: CompletenessOracle)
    requires g.Valid() && Owns(c, g) && g.PendingError(errorOf) == NoError
    ensures var r := Frame(c, g, panel, client, errorOf, complete);
            (r.outcome == Threw(IncompleteFramebuffer) <==>
               c.fboSize != panel && !complete(Image(panel), Image(panel))) &&
            (r.outcome == Threw(IncompleteFramebuffer) ==>
               r.shown == None && r.cache.fboSize == panel &&
               Occurrences(r.gl.log, Cleared) == Occurrences(g.log, Cleared) &&
               Occurrences(r.gl.log, Drawn) == Occurrences(g.log, Drawn))
  {
    var checked := g.GetError(errorOf);
    FrameCounts(c, g, panel, client, errorOf, complete, Cleared);
    FrameCounts(c, g, panel, client, errorOf, complete, Drawn);
    if c.fboSize != panel {
      ResizeIncomplete(c, checked, panel, client, errorOf, complete);
    } else {
      RenderFacts(c, checked.BindFramebuffer(c.fbo).BindRenderbuffer(c.rbo), panel, client, errorOf);
    }
  }

  /** The same for the reallocation branch. */
  lemma ResizeIncomplete(c: RenderCache, g: GlState, panel: Size, client: Size,
                         errorOf: ErrorOracle, complete: CompletenessOracle)
    requires g.Valid() && Owns(c, g)
    ensures var r := Resize(c, g, panel, client, errorOf, complete);
            (r.outcome == Threw(IncompleteFramebuffer) <==> !complete(Image(panel), Image(panel))) &&
            (r.outcome == Threw(IncompleteFramebuffer) ==> r.shown == None && r.cache.fboSize == panel)
  {
    ReallocateAttaches(c, g, panel);
    var (c1, g1) := Reallocate(c, g, panel);
    RenderFacts(c1, g1.CheckFramebufferStatus(complete), panel, client, errorOf);
  }

  /** A frame that completes has drawn the scene into the cached framebuffer with a viewport
      of the panel's size, then left the default framebuffer bound, the viewport covering the
      window's client area, and the current colour texture bound and handed to the GUI. */
  lemma CompletedFrameRestores(c: RenderCache, g: GlState, panel: Size, client: Size,
                               errorOf: ErrorOracle, complete: CompletenessOracle)
    requires g.Valid() && Owns(c, g)
    ensures g.log <= Frame(c, g, panel, client, errorOf, complete).gl.log
    ensures var r := Frame(c, g, panel, client, errorOf, complete);
            r.outcome == Completed ==>
              r.gl.boundFramebuffer == 0 && r.gl.viewport == Rect(0, 0, client.x, client.y) &&
              r.gl.boundTexture == r.cache.texColor && r.shown == Some(r.cache.texColor) &&
              exists i :: |g.log| <= i < |r.gl.log| &&
                r.gl.log[i] == Call.DrawArrays(r.cache.fbo, Rect(0, 0, panel.x, panel.y))
  {
    var checked := g.GetError(errorOf);
    if g.PendingError(errorOf) == NoError {
      if c.fboSize != panel {
        ResizeCompletes(c, checked, panel, client, errorOf, complete);
      } else {
        var g2 := checked.BindFramebuffer(c.fbo).BindRenderbuffer(c.rbo);
        RenderFacts(c, g2, panel, client, errorOf);
        var r := Render(c, g2, panel, client, errorOf);
        if r.outcome == Completed {
          assert |g.log| <= |g2.log| + 5 < |r.gl.log|;
        }
      }
    }
  }

  /** The same for the reallocation branch. */
  lemma ResizeCompletes(c: RenderCache, g: GlState, panel: Size, client: Size,
                        errorOf: ErrorOracle, complete: CompletenessOracle)
    requires g.Valid() && Owns(c, g)
    ensures g.log <= Resize(c, g, panel, client, errorOf, complete).gl.log
    ensures var r := Resize(c, g, panel, client, errorOf, complete);
            r.outcome == Completed ==>
              r.gl.boundFramebuffer == 0 && r.gl.viewport == Rect(0, 0, client.x, client.y) &&
              r.gl.boundTexture == r.cache.texColor && r.shown == Some(r.cache.texColor) &&
              exists i :: |g.log| <= i < |r.gl.log| &&
                r.gl.log[i] == Call.DrawArrays(r.cache.fbo, Rect(0, 0, panel.x, panel.y))
  {
    ReallocateReplaces(c, g, panel);
    var (c1, g1) := Reallocate(c, g, panel);
    ReallocateLog(c, g, panel);
    var g2 := g1.CheckFramebufferStatus(complete);
    RenderFacts(c1, g2, panel, client, errorOf);
    var r := Resize(c, g, panel, client, errorOf, complete);
    if r.outcome == Completed {
      assert |g.log| <= |g2.log| + 5 < |r.gl.log|;
    }
  }

  /** A new SceneRender caches the size (0, 0), so a first panel measured at (0, 0) takes the
      unchanged-size branch: nothing is allocated, the handles stay 0, and a completed frame
      draws into the default framebuffer (0) and hands texture 0 to the GUI. */
  lemma FirstFrameAtZeroSize(g: GlState, client: Size, errorOf: ErrorOracle, complete: CompletenessOracle)
    requires g.Valid()
    ensures var r := Frame(Initial, g, Size(0, 0), client, errorOf, complete);
            r.cache == Initial && Objects(r.gl) == Objects(g) &&
            (r.outcome == Completed ==>
               r.shown == Some(0) &&
               exists i :: |g.log| <= i < |r.gl.log| && r.gl.log[i] == Call.DrawArrays(0, Rect(0, 0, 0, 0)))
  {
    SizeUnchangedAllocatesNothing(Initial, g, Size(0, 0), client, errorOf, complete);
    CompletedFrameRestores(Initial, g, Size(0, 0), client, errorOf, complete);
  }

  /** The new size is recorded before the completeness test, so after a frame that threw
      IncompleteFramebuffer a later frame at the same size does not try again: it allocates
      nothing, queries no status and, if it completes, draws into the rejected framebuffer. */
  lemma NoRetryAfterIncomplete(c: RenderCache, g: GlState, panel: Size, client: Size, nextClient: Size,
                               errorOf: ErrorOracle, complete: CompletenessOracle)
    requires g.Valid() && Owns(c, g)
    requires Frame(c, g, panel, client, errorOf, complete).outcome == Threw(IncompleteFramebuffer)
    ensures var r := Frame(c, g, panel, client, errorOf, complete);
            var next := Frame(r.cache, r.gl, panel, nextClient, errorOf, complete);
            r.cache.fboSize == panel &&
            next.cache == r.cache && Objects(next.gl) == Objects(r.gl) &&
            Occurrences(next.gl.log, StatusQueried) == Occurrences(r.gl.log, StatusQueried) &&
            (next.outcome == Completed ==>
               exists i :: |r.gl.log| <= i < |next.gl.log| &&
                 next.gl.log[i] == Call.DrawArrays(r.cache.fbo, Rect(0, 0, panel.x, panel.y)))
  {
    var r := Frame(c, g, panel, client, errorOf, complete);
    assert g.PendingError(errorOf) == NoError;
    IncompleteThrowsBeforeDrawing(c, g, panel, client, errorOf, complete);
    FrameKeepsOwnership(c, g, panel, client, errorOf, complete);
    SizeUnchangedAllocatesNothing(r.cache, r.gl, panel, nextClient, errorOf, complete);
    CompletedFrameRestores(r.cache, r.gl, panel, nextClient, errorOf, complete);
  }

  /** A frame creates a framebuffer only while the cached handle is 0, and then caches it;
      a non-zero handle never changes. */
  lemma FramebufferCreatedWhileUnset(c: RenderCache, g: GlState, panel: Size, client: Size,
                                     errorOf: ErrorOracle, complete: CompletenessOracle)
    requires g.Valid() && Owns(c, g)
    ensures var r := Frame(c, g, panel, client, errorOf, complete);
            Occurrences(r.gl.log, Created(FramebufferKind))
              == Occurrences(g.log, Created(FramebufferKind)) + (if c.fbo == 0 && r.cache.fbo != 0 then 1 else 0) &&
            (c.fbo != 0 ==> r.cache.fbo == c.fbo)
  {
    FrameCounts(c, g, panel, client, errorOf, complete, Created(FramebufferKind));
    var checked := g.GetError(errorOf);
    if g.PendingError(errorOf) == NoError {
      if c.fboSize == panel {
        RenderKeepsObjects(c, checked.BindFramebuffer(c.fbo).BindRenderbuffer(c.rbo), panel, client, errorOf);
      } else {
        ResizeKeepsFramebuffer(c, checked, panel, client, errorOf, complete);
      }
    }
  }

  /** The same for the reallocation branch, which always ends with a framebuffer cached. */
  lemma ResizeKeepsFramebuffer(c: RenderCache, g: GlState, panel: Size, client: Size,
                               errorOf: ErrorOracle, complete: CompletenessOracle)
    requires g.Valid() && Owns(c, g)
    ensures var r := Resize(c, g, panel, client, errorOf, complete);
            r.cache.fbo != 0 && (c.fbo != 0 ==> r.cache.fbo == c.fbo)
  {
    ReallocateAttaches(c, g, panel);
    ResizeObjects(c, g, panel, client, errorOf, complete);
  }

  // ---------------------------------------------------------------------------------------
  // Disposal
  // ---------------------------------------------------------------------------------------

  /** Dispose deletes the framebuffer and nothing else: the colour texture and the depth
      renderbuffer stay live. */
  lemma DisposeDeletesOnlyFramebuffer(c: RenderCache, g: GlState)
    requires g.Valid() && Owns(c, g)
    ensures var d := g.DeleteFramebuffer(c.fbo);
            d.framebuffers == g.framebuffers - {c.fbo} &&
            d.textures == g.textures && d.renderbuffers == g.renderbuffers &&
            (c.fbo != 0 ==> c.texColor in d.textures && c.rbo in d.renderbuffers)
  {
  }

  /** A second Dispose issues the delete again, on a name that is no longer live, and
      changes no object. */
  lemma SecondDisposeChangesNothing(c: RenderCache, g: GlState)
    requires g.Valid() && Owns(c, g)
    ensures var d := g.DeleteFramebuffer(c.fbo);
            var d2 := d.DeleteFramebuffer(c.fbo);
            Objects(d2) == Objects(d) && d2.log == d.log + [Call.DeleteFramebuffer(c.fbo)]
  {
  }

  // ---------------------------------------------------------------------------------------
  // Sequences of frames
  // ---------------------------------------------------------------------------------------

  /** The number of frames whose measured panel size differs from the one before it, the
      first frame being compared with `cached`. */
  function SizeChanges(cached: Size, inputs: seq<FrameInput>): (n: nat)
    decreases |inputs|
  {
    if inputs == [] then 0
    else (if inputs[0].panel != cached then 1 else 0) + SizeChanges(inputs[0].panel, inputs[1..])
  }

  /** A frame that completes creates one colour texture and one depth renderbuffer if the
      size changed and none otherwise, and caches the measured size. */
  lemma CompletedFrameAllocates(c: RenderCache, g: GlState, panel: Size, client: Size,
                                errorOf: ErrorOracle, complete: CompletenessOracle)
    requires Frame(c, g, panel, client, errorOf, complete).outcome == Completed
    ensures var r := Frame(c, g, panel, client, errorOf, complete);
            var n := if c.fboSize != panel then 1 else 0;
            Occurrences(r.gl.log, Created(TextureKind)) == Occurrences(g.log, Created(TextureKind)) + n &&
            Occurrences(r.gl.log, Created(RenderbufferKind)) == Occurrences(g.log, Created(RenderbufferKind)) + n &&
            r.cache.fboSize == panel
  {
    assert g.PendingError(errorOf) == NoError;
    FrameCounts(c, g, panel, client, errorOf, complete, Created(TextureKind));
    FrameCounts(c, g, panel, client, errorOf, complete, Created(RenderbufferKind));
    var checked := g.GetError(errorOf);
    if c.fboSize != panel {
      var (c1, g1) := Reallocate(c, checked, panel);
      RenderKeepsObjects(c1, g1.CheckFramebufferStatus(complete), panel, client, errorOf);
    } else {
      RenderKeepsObjects(c, checked.BindFramebuffer(c.fbo).BindRenderbuffer(c.rbo), panel, client, errorOf);
    }
  }

  /** In a run in which every frame completes, exactly one colour texture and one depth
      renderbuffer are created per change of the measured size. */
  lemma {:induction false} RunAllocatesOncePerSizeChange(c: RenderCache, g: GlState, inputs: seq<FrameInput>,
                                                        errorOf: ErrorOracle, complete: CompletenessOracle)
    requires Run(c, g, inputs, errorOf, complete).outcome == Completed
    ensures var r := Run(c, g, inputs, errorOf, complete);
            Occurrences(r.gl.log, Created(TextureKind))
              == Occurrences(g.log, Created(TextureKind)) + SizeChanges(c.fboSize, inputs) &&
            Occurrences(r.gl.log, Created(RenderbufferKind))
              == Occurrences(g.log, Created(RenderbufferKind)) + SizeChanges(c.fboSize, inputs)
    decreases |inputs|
  {
    if inputs != [] {
      var f := Frame(c, g, inputs[0].panel, inputs[0].client, errorOf, complete);
      assert f.outcome == Completed;
      CompletedFrameAllocates(c, g, inputs[0].panel, inputs[0].client, errorOf, complete);
      RunAllocatesOncePerSizeChange(f.cache, f.gl, inputs[1..], errorOf, complete);
    }
  }

  /** The panel size of the last frame of a run, or `cached` for an empty run. */
  function LastPanel(cached: Size, inputs: seq<FrameInput>): (r: Size)
    ensures inputs != [] ==> r == inputs[|inputs| - 1].panel
    ensures inputs == [] ==> r == cached
    decreases |inputs|
  {
    if inputs == [] then cached
    else
      var r := LastPanel(inputs[0].panel, inputs[1..]);
      assert inputs[1..] != [] ==> inputs[1..][|inputs[1..]| - 1] == inputs[|inputs| - 1];
      r
  }

  /** After a run in which every frame completed, the cached size is the last frame's panel
      size. */
  lemma {:induction false} RunEndsAtLastSize(c: RenderCache, g: GlState, inputs: seq<FrameInput>,
                                            errorOf: ErrorOracle, complete: CompletenessOracle)
    requires Run(c, g, inputs, errorOf, complete).outcome == Completed
    ensures Run(c, g, inputs, errorOf, complete).cache.fboSize == LastPanel(c.fboSize, inputs)
    decreases |inputs|
  {
    if inputs != [] {
      var f := Frame(c, g, inputs[0].panel, inputs[0].client, errorOf, complete);
      assert f.outcome == Completed;
      CompletedFrameAllocates(c, g, inputs[0].panel, inputs[0].client, errorOf, complete);
      RunEndsAtLastSize(f.cache, f.gl, inputs[1..], errorOf, complete);
    }
  }

  /** Over any run, at most one framebuffer is created: exactly one if the cached handle ends
      non-zero, none otherwise. */
  lemma {:induction false} RunCreatesFramebufferOnce(c: RenderCache, g: GlState, inputs: seq<FrameInput>,
                                                    errorOf: ErrorOracle, complete: CompletenessOracle)
    requires g.Valid() && Owns(c, g)
    ensures var r := Run(c, g, inputs, errorOf, complete);
            Occurrences(r.gl.log, Created(FramebufferKind))
              == Occurrences(g.log, Created(FramebufferKind)) + (if c.fbo == 0 && r.cache.fbo != 0 then 1 else 0) &&
            (c.fbo != 0 ==> r.cache.fbo == c.fbo)
    decreases |inputs|
  {
    if inputs != [] {
      var f := Frame(c, g, inputs[0].panel, inputs[0].client, errorOf, complete);
      FramebufferCreatedWhileUnset(c, g, inputs[0].panel, inputs[0].client, errorOf, complete);
      FrameKeepsOwnership(c, g, inputs[0].panel, inputs[0].client, errorOf, complete);
      if f.outcome.Completed? {
        RunCreatesFramebufferOnce(f.cache, f.gl, inputs[1..], errorOf, complete);
      }
    }
  }

  /** Relative to the GL state `g0` before the first frame: every object that was live in `g0`
      is still live and unchanged, every object live now that was not live in `g0` is one of
      the cached handles, and the cached handles were created after `g0`. */
  ghost predicate Confined(g0: GlState, c: RenderCache, g: GlState) {
    g0.nextName <= g.nextName &&
    (forall n :: n in g0.framebuffers ==> n in g.framebuffers && g.framebuffers[n] == g0.framebuffers[n]) &&
    (forall n :: n in g0.textures ==> n in g.textures && g.textures[n] == g0.textures[n]) &&
    (forall n :: n in g0.renderbuffers ==> n in g.renderbuffers && g.renderbuffers[n] == g0.renderbuffers[n]) &&
    g.framebuffers.Keys <= g0.framebuffers.Keys + {c.fbo} &&
    g.textures.Keys <= g0.textures.Keys + {c.texColor} &&
    g.renderbuffers.Keys <= g0.renderbuffers.Keys + {c.rbo} &&
    (c.fbo == 0 || c.fbo >= g0.nextName) &&
    (c.texColor == 0 || c.texColor >= g0.nextName) &&
    (c.rbo == 0 || c.rbo >= g0.nextName)
  }

  /** One frame keeps the objects confined. */
  lemma FrameStaysConfined(g0: GlState, c: RenderCache, g: GlState, panel: Size, client: Size,
                           errorOf: ErrorOracle, complete: CompletenessOracle)
    requires g0.Valid() && g.Valid() && Owns(c, g) && Confined(g0, c, g)
    ensures var r := Frame(c, g, panel, client, errorOf, complete);
            r.gl.Valid() && Owns(r.cache, r.gl) && Confined(g0, r.cache, r.gl)
  {
    FrameKeepsOwnership(c, g, panel, client, errorOf, complete);
    FrameConfines(g0, c, g, panel, client, errorOf, complete);
  }

  /** One frame keeps the objects confined, whichever branch it takes. */
  lemma FrameConfines(g0: GlState, c: RenderCache, g: GlState, panel: Size, client: Size,
                      errorOf: ErrorOracle, complete: CompletenessOracle)
    requires g0.Valid() && g.Valid() && Owns(c, g) && Confined(g0, c, g)
    ensures var r := Frame(c, g, panel, client, errorOf, complete);
            Confined(g0, r.cache, r.gl)
  {
    var checked := g.GetError(errorOf);
    if g.PendingError(errorOf) == NoError {
      if c.fboSize == panel {
        RenderKeepsObjects(c, checked.BindFramebuffer(c.fbo).BindRenderbuffer(c.rbo), panel, client, errorOf);
      } else {
        ResizeStaysConfined(g0, c, checked, panel, client, errorOf, complete);
      }
    }
  }

  /** The same for the reallocation branch. */
  lemma ResizeStaysConfined(g0: GlState, c: RenderCache, g: GlState, panel: Size, client: Size,
                            errorOf: ErrorOracle, complete: CompletenessOracle)
    requires g0.Valid() && g.Valid() && Owns(c, g) && Confined(g0, c, g)
    ensures var r := Resize(c, g, panel, client, errorOf, complete);
            Confined(g0, r.cache, r.gl)
  {
    ReallocateStaysConfined(g0, c, g, panel);
    ResizeObjects(c, g, panel, client, errorOf, complete);
  }

  /** The same for the reallocation itself. */
  lemma ReallocateStaysConfined(g0: GlState, c: RenderCache, g: GlState, panel: Size)
    requires g0.Valid() && g.Valid() && Owns(c, g) && Confined(g0, c, g)
    ensures Confined(g0, Reallocate(c, g, panel).0, Reallocate(c, g, panel).1)
  {
    ReallocateReplaces(c, g, panel);
    var (c1, g1) := Reallocate(c, g, panel);
    ConfinedAfterReplacing(g0, c, g, c1, g1, panel);
  }

  /** Replacing the three cached objects by the framebuffer (kept or new) and two new
      attachments keeps confinement. */
  lemma ConfinedAfterReplacing(g0: GlState, c: RenderCache, g: GlState, c1: RenderCache, g1: GlState, panel: Size)
    requires g0.Valid() && g.Valid() && Owns(c, g) && Confined(g0, c, g)
    requires c1.fbo == (if c.fbo == 0 then g.nextName else c.fbo)
    requires g.nextName <= c1.texColor && g.nextName <= c1.rbo && g.nextName <= g1.nextName
    requires g1.framebuffers == g.framebuffers[c1.fbo := Attachments(c1.texColor, c1.rbo)]
    requires g1.textures == (g.textures - {c.texColor})[c1.texColor := panel]
    requires g1.renderbuffers == (g.renderbuffers - {c.rbo})[c1.rbo := panel]
    ensures Confined(g0, c1, g1)
  {
  }

  /** Confinement over a run. */
  lemma {:induction false} RunStaysConfined(g0: GlState, c: RenderCache, g: GlState, inputs: seq<FrameInput>,
                                           errorOf: ErrorOracle, complete: CompletenessOracle)
    requires g0.Valid() && g.Valid() && Owns(c, g) && Confined(g0, c, g)
    ensures var r := Run(c, g, inputs, errorOf, complete);
            r.gl.Valid() && Owns(r.cache, r.gl) && Confined(g0, r.cache, r.gl)
    decreases |inputs|, 0
  {
    if inputs != [] {
      FrameStaysConfined(g0, c, g, inputs[0].panel, inputs[0].client, errorOf, complete);
      RunAfterStaysConfined(g0, Frame(c, g, inputs[0].panel, inputs[0].client, errorOf, complete),
                            inputs[1..], errorOf, complete);
    }
  }

  /** Confinement over the rest of a run, after a frame that kept it. */
  lemma {:induction false} RunAfterStaysConfined(g0: GlState, f: Step, rest: seq<FrameInput>,
                                                errorOf: ErrorOracle, complete: CompletenessOracle)
    requires g0.Valid() && f.gl.Valid() && Owns(f.cache, f.gl) && Confined(g0, f.cache, f.gl)
    ensures var r := RunAfter(f, rest, errorOf, complete);
            r.gl.Valid() && Owns(r.cache, r.gl) && Confined(g0, r.cache, r.gl)
    decreases |rest|, 1
  {
    if !f.outcome.Threw? {
      RunStaysConfined(g0, f.cache, f.gl, rest, errorOf, complete);
    }
  }

  /** Nothing leaks, however many resizes a run goes through and however it ends: the objects
      of the GL context that did not exist before the first frame are at most one framebuffer,
      one colour texture and one depth renderbuffer, namely the cached ones, and the objects
      that existed before are untouched. */
  lemma RunLeaksNothing(g0: GlState, inputs: seq<FrameInput>, errorOf: ErrorOracle, complete: CompletenessOracle)
    requires g0.Valid()
    ensures var r := Run(Initial, g0, inputs, errorOf, complete);
            r.gl.framebuffers.Keys - g0.framebuffers.Keys <= {r.cache.fbo} &&
            r.gl.textures.Keys - g0.textures.Keys <= {r.cache.texColor} &&
            r.gl.renderbuffers.Keys - g0.renderbuffers.Keys <= {r.cache.rbo} &&
            (forall n :: n in g0.textures ==> n in r.gl.textures && r.gl.textures[n] == g0.textures[n]) &&
            (forall n :: n in g0.renderbuffers ==> n in r.gl.renderbuffers && r.gl.renderbuffers[n] == g0.renderbuffers[n]) &&
            (forall n :: n in g0.framebuffers ==> n in r.gl.framebuffers && r.gl.framebuffers[n] == g0.framebuffers[n])
  {
    RunStaysConfined(g0, Initial, g0, inputs, errorOf, complete);
  }
}
