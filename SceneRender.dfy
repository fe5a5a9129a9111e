/** The off-screen render target behind the "GameWindow" panel: a framebuffer with a colour
    texture and a depth renderbuffer that follow the panel's size, into which the scene is drawn
    each frame before the colour texture is handed to the GUI.

    `Frame` states, as a function of the cached handles and the GL state, what one call of
    DrawViewportWindow does; the class SceneRender performs the same steps on a GL context and
    is proved to agree with it. */
module Scene {
  import opened OpenGl
  import Errors

  datatype Option<T> = None | Some(value: T)

  /** The five places where DrawViewportWindow calls Error.Check. */
  datatype Checkpoint = OnEntry | AfterBind | AfterDraw | AfterRestore | AfterPublish

  /** The exceptions that leave DrawViewportWindow. */
  datatype Fault = GlError(at: Checkpoint) | IncompleteFramebuffer

  datatype Outcome = Completed | Threw(fault: Fault)

  /** The four fields SceneRender keeps between frames. */
  datatype RenderCache = RenderCache(fbo: int, rbo: int, texColor: int, fboSize: Size)

  /** The fields of a newly constructed SceneRender: no handles and a (0, 0) size. */
  const Initial := RenderCache(0, 0, 0, Size(0, 0))

  /** What one frame leaves behind: how it ended, the texture handed to the GUI's Image call
      (None when the frame threw before reaching it), the cached fields and the GL state. */
  datatype Step = Step(outcome: Outcome, shown: Option<int>, cache: RenderCache, gl: GlState)

  /** One frame's measurements: the panel size (already truncated to integers) and the
      window's client size. */
  datatype FrameInput = FrameInput(panel: Size, client: Size)

  /** The render target's invariant: either nothing has been allocated yet, or the framebuffer,
      the colour texture and the depth renderbuffer are all live, both attachments belong to the
      framebuffer and both have the cached size. */
  ghost predicate Owns(c: RenderCache, g: GlState) {
    (c == Initial) ||
    (c.fbo in g.framebuffers && c.texColor in g.textures && c.rbo in g.renderbuffers &&
     g.framebuffers[c.fbo] == Attachments(c.texColor, c.rbo) &&
     g.textures[c.texColor] == c.fboSize && g.renderbuffers[c.rbo] == c.fboSize)
  }

  /** Replaces the colour texture `t` of the bound framebuffer: delete it when there is one,
      create a new texture, give it an image of the panel's size and attach it. */
  function ReplaceColor(t: int, g: GlState, panel: Size): (replaced: GlState) {
    var g1 := if t > 0 then g.DeleteTexture(t) else g;
    g1.GenTexture().BindTexture(g1.nextName).TexImage2D(panel).FramebufferTexture2D(g1.nextName)
  }

  /** Replaces the depth renderbuffer `r` of the bound framebuffer in the same way. */
  function ReplaceDepth(r: int, g: GlState, panel: Size): (replaced: GlState) {
    var g1 := if r > 0 then g.DeleteRenderbuffer(r) else g;
    g1.GenRenderbuffer().BindRenderbuffer(g1.nextName).RenderbufferStorage(panel).FramebufferRenderbuffer(g1.nextName)
  }

  /** The branch taken when the measured size differs from the cached one, up to the
      completeness query: record the new size, create the framebuffer on first use, bind it,
      replace the colour texture, then replace the depth renderbuffer. Deleting an object
      leaves the allocator alone, so each new name is the allocator's next name before the
      replacement. */
  function Reallocate(c: RenderCache, g: GlState, panel: Size): (r: (RenderCache, GlState)) {
    var fbo := if c.fbo == 0 then g.nextName else c.fbo;
    var g1 := if c.fbo == 0 then g.GenFramebuffer().BindFramebuffer(fbo) else g;
    var g2 := g1.BindFramebuffer(fbo);
    var tex := g2.nextName;
    var g3 := ReplaceColor(c.texColor, g2, panel);
    var rb := g3.nextName;
    var g4 := ReplaceDepth(c.rbo, g3, panel);
    (RenderCache(fbo, rb, tex, panel), g4)
  }

  /** The panel-sized viewport, the clear, and the scene drawer's resize, clear and draw calls,
      all aimed at whatever framebuffer is bound. */
  function DrawScene(g: GlState, panel: Size): (d: GlState) {
    g.Viewport(Rect(0, 0, panel.x, panel.y))
     .Clear()
     .Viewport(Rect(0, 0, panel.x, panel.y))
     .Clear()
     .DrawArrays()
  }

  /** Back to the default framebuffer with the window-sized viewport. */
  function RestoreWindow(g: GlState, client: Size): (r: GlState) {
    g.BindFramebuffer(0).Viewport(Rect(0, 0, client.x, client.y))
  }

  /** Everything after the target is bound: draw the scene into it, go back to the default
      framebuffer and the full-window viewport, and hand the colour texture to the GUI, with
      an error check after each of these steps. */
  function Render(c: RenderCache, g: GlState, panel: Size, client: Size, errorOf: ErrorOracle): (r: Step) {
    if g.PendingError(errorOf) != NoError then
      Step(Threw(GlError(AfterBind)), None, c, g.GetError(errorOf))
    else
      LeaveTarget(c, DrawScene(g.GetError(errorOf), panel), client, errorOf)
  }

  /** The check after drawing, then back to the window. */
  function LeaveTarget(c: RenderCache, drawn: GlState, client: Size, errorOf: ErrorOracle): (r: Step) {
    if drawn.PendingError(errorOf) != NoError then
      Step(Threw(GlError(AfterDraw)), None, c, drawn.GetError(errorOf))
    else
      Publish(c, RestoreWindow(drawn.GetError(errorOf), client), errorOf)
  }

  /** The check after restoring the window, then the colour texture bound for the GUI's Image
      call and the last check. */
  function Publish(c: RenderCache, restored: GlState, errorOf: ErrorOracle): (r: Step) {
    if restored.PendingError(errorOf) != NoError then
      Step(Threw(GlError(AfterRestore)), None, c, restored.GetError(errorOf))
    else
      var published := restored.GetError(errorOf).BindTexture(c.texColor);
      if published.PendingError(errorOf) != NoError then
        Step(Threw(GlError(AfterPublish)), Some(c.texColor), c, published.GetError(errorOf))
      else
        Step(Completed, Some(c.texColor), c, published.GetError(errorOf))
  }

  /** One call of DrawViewportWindow for a measured panel size and window client size. */
  function Frame(c: RenderCache, g: GlState, panel: Size, client: Size,
                 errorOf: ErrorOracle, complete: CompletenessOracle): (r: Step)
  {
    var checked := g.GetError(errorOf);
    if g.PendingError(errorOf) != NoError then
      Step(Threw(GlError(OnEntry)), None, c, checked)
    else if c.fboSize != panel then
      Resize(c, checked, panel, client, errorOf, complete)
    else
      Render(c, checked.BindFramebuffer(c.fbo).BindRenderbuffer(c.rbo), panel, client, errorOf)
  }

  /** The branch of a frame whose measured size differs from the cached one: reallocate,
      query completeness, and throw or go on to draw. */
  function Resize(c: RenderCache, g: GlState, panel: Size, client: Size,
                  errorOf: ErrorOracle, complete: CompletenessOracle): (r: Step)
  {
    var (c1, g1) := Reallocate(c, g, panel);
    var g2 := g1.CheckFramebufferStatus(complete);
    if !g1.IsComplete(complete) then Step(Threw(IncompleteFramebuffer), None, c1, g2)
    else Render(c1, g2, panel, client, errorOf)
  }

  /** The frame loop: DrawViewportWindow once per input, stopping at the first exception,
      which ends the program. The result is the last frame's; no frame at all is Completed.
      Frames only ever append calls, so the calls issued before the run stay at the head of
      the log. */
  function Run(c: RenderCache, g: GlState, inputs: seq<FrameInput>,
               errorOf: ErrorOracle, complete: CompletenessOracle): (r: Step)
    ensures g.log <= r.gl.log
    decreases |inputs|, 0
  {
    if inputs == [] then Step(Completed, None, c, g)
    else
      FrameExtendsLog(c, g, inputs[0].panel, inputs[0].client, errorOf, complete);
      RunAfter(Frame(c, g, inputs[0].panel, inputs[0].client, errorOf, complete), inputs[1..], errorOf, complete)
  }

  /** The rest of the frame loop after frame `f`: it ends there if `f` threw. */
  function RunAfter(f: Step, rest: seq<FrameInput>, errorOf: ErrorOracle, complete: CompletenessOracle): (r: Step)
    ensures f.gl.log <= r.gl.log
    decreases |rest|, 1
  {
    if f.outcome.Threw? then f else Run(f.cache, f.gl, rest, errorOf, complete)
  }

  /** A frame only appends calls to the log, however it ends. */
  lemma FrameExtendsLog(c: RenderCache, g: GlState, panel: Size, client: Size,
                        errorOf: ErrorOracle, complete: CompletenessOracle)
    ensures g.log <= Frame(c, g, panel, client, errorOf, complete).gl.log
  {
    var checked := g.GetError(errorOf);
    if g.PendingError(errorOf) == NoError {
      if c.fboSize != panel {
        ReallocateLog(c, checked, panel);
        var (c1, g1) := Reallocate(c, checked, panel);
        RenderExtendsLog(c1, g1.CheckFramebufferStatus(complete), panel, client, errorOf);
      } else {
        RenderExtendsLog(c, checked.BindFramebuffer(c.fbo).BindRenderbuffer(c.rbo), panel, client, errorOf);
      }
    }
  }

  /** Drawing and publishing only append calls to the log. */
  lemma RenderExtendsLog(c: RenderCache, g: GlState, panel: Size, client: Size, errorOf: ErrorOracle)
    ensures g.log <= Render(c, g, panel, client, errorOf).gl.log
  {
  }

  /** What a GL state holds in the way of objects: the allocator's next name and the live
      framebuffers, textures and renderbuffers with what they hold. */
  datatype Inventory = Inventory(nextName: int, framebuffers: map<int, Attachments>,
                                 textures: map<int, Size>, renderbuffers: map<int, Size>)

  /** The objects of a GL state. */
  function Objects(g: GlState): (r: Inventory) {
    Inventory(g.nextName, g.framebuffers, g.textures, g.renderbuffers)
  }

  /** Drawing and publishing create, delete and resize nothing and keep the cached fields. */
  lemma RenderKeepsObjects(c: RenderCache, g: GlState, panel: Size, client: Size, errorOf: ErrorOracle)
    ensures var r := Render(c, g, panel, client, errorOf);
            r.cache == c && Objects(r.gl) == Objects(g)
  {
  }

  /** Every frame keeps the allocator's and the render target's invariants, whichever way
      it ends. */
  lemma FrameKeepsOwnership(c: RenderCache, g: GlState, panel: Size, client: Size,
                            errorOf: ErrorOracle, complete: CompletenessOracle)
    requires g.Valid() && Owns(c, g)
    ensures var r := Frame(c, g, panel, client, errorOf, complete);
            r.gl.Valid() && Owns(r.cache, r.gl)
  {
    var checked := g.GetError(errorOf);
    if g.PendingError(errorOf) == NoError {
      if c.fboSize != panel {
        ResizeKeepsOwnership(c, checked, panel, client, errorOf, complete);
      } else {
        RenderKeepsObjects(c, checked.BindFramebuffer(c.fbo).BindRenderbuffer(c.rbo), panel, client, errorOf);
      }
    }
  }

  /** The same for the reallocation branch. */
  lemma ResizeKeepsOwnership(c: RenderCache, g: GlState, panel: Size, client: Size,
                             errorOf: ErrorOracle, complete: CompletenessOracle)
    requires g.Valid() && Owns(c, g)
    ensures var r := Resize(c, g, panel, client, errorOf, complete);
            r.gl.Valid() && Owns(r.cache, r.gl)
  {
    ReallocateAttaches(c, g, panel);
    ResizeObjects(c, g, panel, client, errorOf, complete);
  }

  /** After the reallocation, a resizing frame changes neither the cache nor the objects,
      whichever way it ends. */
  lemma ResizeObjects(c: RenderCache, g: GlState, panel: Size, client: Size,
                      errorOf: ErrorOracle, complete: CompletenessOracle)
    ensures var r := Resize(c, g, panel, client, errorOf, complete);
            r.cache == Reallocate(c, g, panel).0 && Objects(r.gl) == Objects(Reallocate(c, g, panel).1)
  {
    var (c1, g1) := Reallocate(c, g, panel);
    RenderKeepsObjects(c1, g1.CheckFramebufferStatus(complete), panel, client, errorOf);
  }

  /** Replacing the colour attachment of the bound framebuffer `fb`: the old texture is gone,
      the allocator's next name is a texture of the panel's size attached to `fb`, and no
      other object changes. */
  lemma ReplaceColorEffect(t: int, g: GlState, panel: Size)
    requires g.nextName >= 1 && g.boundFramebuffer != 0 && g.boundFramebuffer in g.framebuffers
    requires t > 0 || t !in g.textures
    ensures var r := ReplaceColor(t, g, panel);
            var fb := g.boundFramebuffer;
            r.nextName == g.nextName + 1 && r.boundFramebuffer == fb &&
            r.framebuffers == g.framebuffers[fb := g.framebuffers[fb].(color := g.nextName)] &&
            r.textures == (g.textures - {t})[g.nextName := panel] &&
            r.renderbuffers == g.renderbuffers
  {
    var g1 := if t > 0 then g.DeleteTexture(t) else g;
    assert g1.textures == g.textures - {t};
    assert g1.boundFramebuffer == g.boundFramebuffer && g1.framebuffers.Keys == g.framebuffers.Keys;
    assert g1.framebuffers == g.framebuffers[g.boundFramebuffer := g1.framebuffers[g.boundFramebuffer]];
  }

  /** Replacing the depth attachment of the bound framebuffer, in the same terms. */
  lemma ReplaceDepthEffect(rb: int, g: GlState, panel: Size)
    requires g.nextName >= 1 && g.boundFramebuffer != 0 && g.boundFramebuffer in g.framebuffers
    requires rb > 0 || rb !in g.renderbuffers
    ensures var r := ReplaceDepth(rb, g, panel);
            var fb := g.boundFramebuffer;
            r.nextName == g.nextName + 1 && r.boundFramebuffer == fb &&
            r.framebuffers == g.framebuffers[fb := g.framebuffers[fb].(depth := g.nextName)] &&
            r.renderbuffers == (g.renderbuffers - {rb})[g.nextName := panel] &&
            r.textures == g.textures
  {
    var g1 := if rb > 0 then g.DeleteRenderbuffer(rb) else g;
    assert g1.renderbuffers == g.renderbuffers - {rb};
    assert g1.boundFramebuffer == g.boundFramebuffer && g1.framebuffers.Keys == g.framebuffers.Keys;
    assert g1.framebuffers == g.framebuffers[g.boundFramebuffer := g1.framebuffers[g.boundFramebuffer]];
  }

  /** The reallocation branch keeps the framebuffer (creating it on first use), replaces the
      colour texture and the depth renderbuffer by two new objects of the panel's size
      attached to it, and changes no other object. */
  lemma ReallocateReplaces(c: RenderCache, g: GlState, panel: Size)
    requires g.Valid() && Owns(c, g)
    ensures var (c1, g1) := Reallocate(c, g, panel);
            c1.fbo == (if c.fbo == 0 then g.nextName else c.fbo) &&
            c1.texColor == (if c.fbo == 0 then g.nextName + 1 else g.nextName) &&
            c1.rbo == c1.texColor + 1 && g1.nextName == c1.rbo + 1 && c1.fboSize == panel &&
            g1.boundFramebuffer == c1.fbo &&
            g1.framebuffers == g.framebuffers[c1.fbo := Attachments(c1.texColor, c1.rbo)] &&
            g1.textures == (g.textures - {c.texColor})[c1.texColor := panel] &&
            g1.renderbuffers == (g.renderbuffers - {c.rbo})[c1.rbo := panel]
  {
    var fbo := if c.fbo == 0 then g.nextName else c.fbo;
    var g1 := if c.fbo == 0 then g.GenFramebuffer().BindFramebuffer(fbo) else g;
    var g2 := g1.BindFramebuffer(fbo);
    TargetBound(c, g);
    ReplaceColorEffect(c.texColor, g2, panel);
    var g3 := ReplaceColor(c.texColor, g2, panel);
    ReplaceDepthEffect(c.rbo, g3, panel);
    ReplacedBoth(c, g, g2, g3, ReplaceDepth(c.rbo, g3, panel), panel);
  }

  /** Composes the three steps of the reallocation given as their effects on the objects. */
  lemma ReplacedBoth(c: RenderCache, g: GlState, g2: GlState, g3: GlState, g4: GlState, panel: Size)
    requires g2.boundFramebuffer in g2.framebuffers
    requires g2.framebuffers == g.framebuffers[g2.boundFramebuffer := g2.framebuffers[g2.boundFramebuffer]]
    requires g2.textures == g.textures && g2.renderbuffers == g.renderbuffers
    requires var fb := g2.boundFramebuffer;
             g3.nextName == g2.nextName + 1 && g3.boundFramebuffer == fb &&
             g3.framebuffers == g2.framebuffers[fb := g2.framebuffers[fb].(color := g2.nextName)] &&
             g3.textures == (g2.textures - {c.texColor})[g2.nextName := panel] &&
             g3.renderbuffers == g2.renderbuffers
    requires var fb := g3.boundFramebuffer;
             g4.nextName == g3.nextName + 1 && g4.boundFramebuffer == fb &&
             g4.framebuffers == g3.framebuffers[fb := g3.framebuffers[fb].(depth := g3.nextName)] &&
             g4.renderbuffers == (g3.renderbuffers - {c.rbo})[g3.nextName := panel] &&
             g4.textures == g3.textures
    ensures g4.boundFramebuffer == g2.boundFramebuffer && g4.nextName == g2.nextName + 2
    ensures g4.framebuffers == g.framebuffers[g2.boundFramebuffer := Attachments(g2.nextName, g2.nextName + 1)]
    ensures g4.textures == (g.textures - {c.texColor})[g2.nextName := panel]
    ensures g4.renderbuffers == (g.renderbuffers - {c.rbo})[g2.nextName + 1 := panel]
  {
  }

  /** Making the framebuffer current: the cached one, whose attachments binding leaves as
      they were, or a new framebuffer without attachments when none is cached; no texture or
      renderbuffer changes. */
  lemma TargetBound(c: RenderCache, g: GlState)
    requires g.Valid() && Owns(c, g)
    ensures var fbo := if c.fbo == 0 then g.nextName else c.fbo;
            var g1 := if c.fbo == 0 then g.GenFramebuffer().BindFramebuffer(fbo) else g;
            var g2 := g1.BindFramebuffer(fbo);
            fbo != 0 && g2.boundFramebuffer == fbo && fbo in g2.framebuffers &&
            g2.nextName == (if c.fbo == 0 then g.nextName + 1 else g.nextName) &&
            g2.framebuffers == (if c.fbo == 0 then g.framebuffers[fbo := Attachments(0, 0)] else g.framebuffers) &&
            g2.textures == g.textures && g2.renderbuffers == g.renderbuffers &&
            (c.texColor > 0 || c.texColor !in g2.textures) && (c.rbo > 0 || c.rbo !in g2.renderbuffers)
  {
  }

  /** After the reallocation branch the framebuffer holds the two new attachments, both of
      the requested size, and the allocator's invariant still holds. */
  lemma ReallocateAttaches(c: RenderCache, g: GlState, panel: Size)
    requires g.Valid() && Owns(c, g)
    ensures var (c1, g1) := Reallocate(c, g, panel);
            g1.Valid() && Owns(c1, g1) && c1.fbo != 0 &&
            g1.boundFramebuffer == c1.fbo &&
            g1.ColorImage() == Image(panel) && g1.DepthImage() == Image(panel)
  {
    ReallocateReplaces(c, g, panel);
    var (c1, g1) := Reallocate(c, g, panel);
    AttachedAfterReplacing(g, c1, g1, panel);
  }

  /** The same for any state whose objects are those of `g` with the framebuffer `c1.fbo`
      holding two attachments newer than every object of `g`. */
  lemma AttachedAfterReplacing(g: GlState, c1: RenderCache, g1: GlState, panel: Size)
    requires g.Valid()
    requires 1 <= c1.fbo && g.nextName <= c1.texColor && c1.rbo == c1.texColor + 1 && g1.nextName == c1.rbo + 1
    requires c1.fbo < g1.nextName && c1.fboSize == panel && g1.boundFramebuffer == c1.fbo
    requires g1.framebuffers == g.framebuffers[c1.fbo := Attachments(c1.texColor, c1.rbo)]
    requires g1.textures.Keys <= g.textures.Keys + {c1.texColor}
    requires g1.renderbuffers.Keys <= g.renderbuffers.Keys + {c1.rbo}
    requires c1.texColor in g1.textures && g1.textures[c1.texColor] == panel
    requires c1.rbo in g1.renderbuffers && g1.renderbuffers[c1.rbo] == panel
    ensures g1.Valid() && Owns(c1, g1) && g1.ColorImage() == Image(panel) && g1.DepthImage() == Image(panel)
  {
  }

  /** The calls that make the framebuffer current: generate and bind it when none is cached
      (`next` being the allocator's next name), then bind it. */
  function TargetCalls(c: RenderCache, next: int): (calls: seq<Call>) {
    var fbo := if c.fbo == 0 then next else c.fbo;
    (if c.fbo == 0 then [Call.GenFramebuffer(next), Call.BindFramebuffer(next)] else []) + [Call.BindFramebuffer(fbo)]
  }

  /** The calls that replace colour texture `t` by the new texture `name`. */
  function ColorCalls(t: int, name: int, panel: Size): (calls: seq<Call>) {
    (if t > 0 then [Call.DeleteTexture(t)] else [])
      + [Call.GenTexture(name), Call.BindTexture(name), Call.TexImage2D(panel), Call.FramebufferTexture2D(name)]
  }

  /** The calls that replace depth renderbuffer `r` by the new renderbuffer `name`. */
  function DepthCalls(r: int, name: int, panel: Size): (calls: seq<Call>) {
    (if r > 0 then [Call.DeleteRenderbuffer(r)] else [])
      + [Call.GenRenderbuffer(name), Call.BindRenderbuffer(name), Call.RenderbufferStorage(panel),
         Call.FramebufferRenderbuffer(name)]
  }

  /** The reallocation's log, call by call: the framebuffer is (created and) bound, then the
      old texture, when its handle is positive, is deleted by the call just before the one that
      creates its replacement, which is given its image and attached, and then the same for
      the renderbuffer. */
  lemma ReallocateLog(c: RenderCache, g: GlState, panel: Size)
    ensures var (c1, g1) := Reallocate(c, g, panel);
            g1.log == g.log + TargetCalls(c, g.nextName) + ColorCalls(c.texColor, c1.texColor, panel)
                      + DepthCalls(c.rbo, c1.rbo, panel)
  {
    var fbo := if c.fbo == 0 then g.nextName else c.fbo;
    var g1 := if c.fbo == 0 then g.GenFramebuffer().BindFramebuffer(fbo) else g;
    var g2 := g1.BindFramebuffer(fbo);
    assert g2.log == g.log + TargetCalls(c, g.nextName);
    var g3 := ReplaceColor(c.texColor, g2, panel);
    ReplaceColorLog(c.texColor, g2, panel);
    ReplaceDepthLog(c.rbo, g3, panel);
  }

  /** Replacing the colour texture appends its calls and uses up one name. */
  lemma ReplaceColorLog(t: int, g: GlState, panel: Size)
    ensures var g1 := ReplaceColor(t, g, panel);
            g1.log == g.log + ColorCalls(t, g.nextName, panel) && g1.nextName == g.nextName + 1
  {
  }

  /** Replacing the depth renderbuffer appends its calls and uses up one name. */
  lemma ReplaceDepthLog(r: int, g: GlState, panel: Size)
    ensures var g1 := ReplaceDepth(r, g, panel);
            g1.log == g.log + DepthCalls(r, g.nextName, panel) && g1.nextName == g.nextName + 1
  {
  }

  /** The render-target cache of the "GameWindow" panel. */
  class SceneRender {
    const gl: Gl
    var fbo: int
    var rbo: int
    var texColor: int
    var fboSize: Size

    function Cached(): (cache: RenderCache)
      reads this
    {
      RenderCache(fbo, rbo, texColor, fboSize)
    }

    ghost predicate Valid()
      reads this, gl
    {
      gl.Valid() && Owns(Cached(), gl.State())
    }

    constructor (gl: Gl)
      requires gl.Valid()
      ensures Valid() && this.gl == gl && Cached() == Initial
    {
      this.gl := gl;
      fbo, rbo, texColor := 0, 0, 0;
      fboSize := Size(0, 0);
    }

    /** Draws the scene into the off-screen target, resizing the target first when the panel's
        size changed, and hands the colour texture to the GUI. An exception of the source is
        returned as a Threw outcome. */
    method DrawViewportWindow(panel: Size, client: Size) returns (outcome: Outcome, shown: Option<int>)
      requires Valid()
      modifies this, gl
      ensures Valid()
      ensures Step(outcome, shown, Cached(), gl.State())
              == Frame(old(Cached()), old(gl.State()), panel, client, gl.errorOf, gl.complete)
      ensures outcome.Completed? ==>
                gl.boundFramebuffer == 0 && gl.viewport == Rect(0, 0, client.x, client.y) &&
                gl.boundTexture == texColor && shown == Some(texColor)
    {
      FrameKeepsOwnership(Cached(), gl.State(), panel, client, gl.errorOf, gl.complete);
      var ok := Errors.Check(gl);
      if !ok {
        return Threw(GlError(OnEntry)), None;
      }
      if fboSize != panel {
        ResizeTarget(panel);
        var isComplete := gl.CheckFramebufferStatus();
        if !isComplete {
          return Threw(IncompleteFramebuffer), None;
        }
      } else {
        gl.BindFramebuffer(fbo);
        gl.BindRenderbuffer(rbo);
      }
      outcome, shown := DrawAndPublish(panel, client);
    }

    /** The reallocation branch of DrawViewportWindow, up to the completeness query. */
    method ResizeTarget(panel: Size)
      modifies this, gl
      ensures (Cached(), gl.State()) == Reallocate(old(Cached()), old(gl.State()), panel)
    {
      fboSize := panel;
      if fbo == 0 {
        fbo := gl.GenFramebuffer();
        gl.BindFramebuffer(fbo);
      }
      gl.BindFramebuffer(fbo);
      NewColorTexture(panel);
      NewDepthBuffer(panel);
    }

    /** Deletes the colour texture when there is one and attaches a new one of the panel's size. */
    method NewColorTexture(panel: Size)
      modifies this`texColor, gl
      ensures texColor == old(gl.nextName)
      ensures gl.State() == ReplaceColor(old(texColor), old(gl.State()), panel)
    {
      if texColor > 0 {
        gl.DeleteTexture(texColor);
      }
      texColor := gl.GenTexture();
      gl.BindTexture(texColor);
      gl.TexImage2D(panel);
      gl.FramebufferTexture2D(texColor);
    }

    /** Deletes the depth renderbuffer when there is one and attaches a new one of the panel's size. */
    method NewDepthBuffer(panel: Size)
      modifies this`rbo, gl
      ensures rbo == old(gl.nextName)
      ensures gl.State() == ReplaceDepth(old(rbo), old(gl.State()), panel)
    {
      if rbo > 0 {
        gl.DeleteRenderbuffer(rbo);
      }
      rbo := gl.GenRenderbuffer();
      gl.BindRenderbuffer(rbo);
      gl.RenderbufferStorage(panel);
      gl.FramebufferRenderbuffer(rbo);
    }

    /** The part of DrawViewportWindow after the target is bound: draw, restore, publish. */
    method DrawAndPublish(panel: Size, client: Size) returns (outcome: Outcome, shown: Option<int>)
      modifies gl
      ensures Step(outcome, shown, Cached(), gl.State()) == Render(Cached(), old(gl.State()), panel, client, gl.errorOf)
      ensures outcome.Completed? ==>
                gl.boundFramebuffer == 0 && gl.viewport == Rect(0, 0, client.x, client.y) &&
                gl.boundTexture == texColor && shown == Some(texColor)
    {
      var ok := Errors.Check(gl);
      if !ok {
        return Threw(GlError(AfterBind)), None;
      }
      gl.Viewport(Rect(0, 0, panel.x, panel.y));
      gl.Clear();
      // the scene drawer: OnResize sets the viewport again, OnRenderFrame clears and draws
      gl.Viewport(Rect(0, 0, panel.x, panel.y));
      gl.Clear();
      gl.DrawArrays();
      ok := Errors.Check(gl);
      if !ok {
        return Threw(GlError(AfterDraw)), None;
      }
      gl.BindFramebuffer(0);
      gl.Viewport(Rect(0, 0, client.x, client.y));
      ok := Errors.Check(gl);
      if !ok {
        return Threw(GlError(AfterRestore)), None;
      }
      gl.BindTexture(texColor);
      shown := Some(texColor);
      ok := Errors.Check(gl);
      if !ok {
        return Threw(GlError(AfterPublish)), shown;
      }
      outcome := Completed;
    }

    /** Closes the scene drawer and deletes the framebuffer; the colour texture and the depth
        renderbuffer are not deleted. */
    method Dispose()
      modifies gl
      ensures gl.State() == old(gl.State()).DeleteFramebuffer(fbo)
    {
      gl.DeleteFramebuffer(fbo);
    }
  }
}
