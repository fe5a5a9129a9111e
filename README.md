# Off-screen render target of the ImGui.NET OpenTK sample

This project models the render-target cache behind the sample's "GameWindow" panel, i.e.
`SceneRender` in `ImGuiNET.OpenTK.Sample/SceneRender.cs`. Once per frame,
`DrawViewportWindow` measures the panel. When the measured size differs from the cached one,
it records the new size and creates the framebuffer if none exists yet. It then replaces the
colour texture and the depth renderbuffer with new ones of the new size and checks that the
framebuffer is complete. When the size is unchanged, it only binds the framebuffer and the
renderbuffer again. The frame then draws the triangle scene into the framebuffer, goes back
to the default framebuffer and the full-window viewport, and hands the colour texture to
ImGui. `Dispose` deletes the framebuffer. `Error.Check` (in `Program.cs`) reads the GL error
flag between the steps and throws when it is set.

Files:

- `OpenGl.dfy` (module `OpenGl`) is an abstract OpenGL context. `GlState` holds:
  - a name allocator;
  - the live framebuffers, textures and renderbuffers;
  - the three bindings and the viewport;
  - a log of every call issued.

  Each GL call is a pure transition on `GlState`. The class `Gl` holds the same fields and
  changes them in place, and each of its methods is proved to perform the matching
  transition. Two function parameters stand for what the driver decides:
  - `errorOf`: the code `glGetError` reports;
  - `complete`: whether a framebuffer with the given attachment images is complete.

  `Occurrences` counts the calls of one kind (created, deleted, cleared, drawn, status queried) in a log.
- `Errors.dfy` (module `Errors`) holds `Error.Check`.
- `SceneRender.dfy` (module `Scene`) holds:
  - the class `SceneRender`, with the source's four fields and its methods;
  - the pure specification `Frame`, which gives one call of `DrawViewportWindow` as a
    function of the cached fields, the GL state and the two measured sizes;
  - `Run`, which repeats `Frame` over a sequence of frames and stops at the first exception.

  The class's methods are proved equal to `Frame`, `Reallocate` and `Render`.
  The invariant `Owns` says:
  - either nothing is allocated;
  - or the framebuffer holds exactly the cached texture and renderbuffer, both live and
    both of the cached size.
- `SceneCounts.dfy` (module `SceneCounts`) counts, per kind of call, what one frame adds to
  the log.
- `SceneProperties.dfy` (module `SceneProperties`) holds the properties: of one frame, of
  `Dispose`, and of runs of frames.

Four behaviours of `SceneRender.cs` are easy to misread:

- The new size is recorded before the completeness check, not after it. So after
  an `IncompleteFramebuffer` exception, a later frame of the same size does not allocate again
  (`NoRetryAfterIncomplete`).
- A degenerate (zero) size is not skipped. A size equal to the cached one skips
  reallocation even when no framebuffer exists. So a first frame measured at (0, 0) allocates
  nothing, draws into the default framebuffer and hands texture 0 to ImGui
  (`FirstFrameAtZeroSize`). Any other zero size is passed to the allocation calls.
- At the end of a frame, the default framebuffer (0) is bound, not whatever was bound
  before. The viewport is set to the window's client size, not restored.
- `Dispose` deletes only the framebuffer. The colour texture and the depth renderbuffer stay
  live. A second `Dispose` issues the delete again, on a name that is no longer live.

## Model

| member | source | states |
|---|---|---|
| Scene.SceneRender.constructor | ImGuiNET.OpenTK.Sample/SceneRender.cs:15-28 | a new render target holds no handles (0, 0, 0) and the cached size (0, 0), and the ownership invariant holds |
| Scene.SceneRender.DrawViewportWindow | ImGuiNET.OpenTK.Sample/SceneRender.cs:30-130 | the outcome, the texture handed to ImGui, the new fields and the new GL state are exactly those of `Frame`; the ownership invariant is kept whichever way the frame ends; a completed frame leaves framebuffer 0 bound, the viewport at the client size and the cached colour texture bound and shown |
| Scene.SceneRender.ResizeTarget | ImGuiNET.OpenTK.Sample/SceneRender.cs:46-80 | the new fields and GL state are those of `Reallocate`: size recorded, framebuffer created only if the handle is 0, then bound, both attachments replaced |
| Scene.SceneRender.NewColorTexture | ImGuiNET.OpenTK.Sample/SceneRender.cs:62-71 | the old texture is deleted only if its handle is positive; the new handle is the allocator's next name; the GL state is that of `ReplaceColor` |
| Scene.SceneRender.NewDepthBuffer | ImGuiNET.OpenTK.Sample/SceneRender.cs:73-80 | the same for the depth renderbuffer (`ReplaceDepth`) |
| Scene.SceneRender.DrawAndPublish | ImGuiNET.OpenTK.Sample/SceneRender.cs:100-126 | the result equals `Render`, with an exception at each of the four checks; on completion framebuffer 0 is bound, the viewport covers the client area and the colour texture is bound and shown |
| Scene.SceneRender.Dispose | ImGuiNET.OpenTK.Sample/SceneRender.cs:132-136 | the GL state afterwards is the one where the cached framebuffer is deleted, and nothing else changes |
| Errors.Check | ImGuiNET.OpenTK.Sample/Program.cs:16-23 | reads the error flag (one GetError call logged); reports success exactly when the pending code is NoError |
| Scene.RenderKeepsObjects | ImGuiNET.OpenTK.Sample/SceneRender.cs:100-126 | drawing, restoring and publishing keep the cached fields, the allocator and every live object |
| Scene.FrameKeepsOwnership | ImGuiNET.OpenTK.Sample/SceneRender.cs:30-130 | every frame, however it ends, keeps the allocator's invariant and the ownership invariant |
| Scene.ResizeKeepsOwnership | ImGuiNET.OpenTK.Sample/SceneRender.cs:46-91 | the same for the reallocation branch, including when the completeness check throws |
| Scene.ResizeObjects | ImGuiNET.OpenTK.Sample/SceneRender.cs:88-126 | after the reallocation, the rest of the frame changes neither the cached fields nor any object |
| Scene.Run | ImGuiNET.OpenTK.Sample/Window.cs:60-85 | the frame loop: one DrawViewportWindow per rendered frame, in order, each starting from the previous frame's fields and GL state; the first exception ends the loop (and the program); every frame only appends calls, so the calls issued before the run stay at the head of the log |
| Scene.FrameExtendsLog | ImGuiNET.OpenTK.Sample/SceneRender.cs:30-130 | a frame, however it ends, only appends calls to the log |
| Scene.ReplaceColorEffect | ImGuiNET.OpenTK.Sample/SceneRender.cs:62-71 | replacing the colour texture removes the old texture, adds a texture of the panel size under the next name, attaches it to the bound framebuffer, and changes no other object |
| Scene.ReplaceDepthEffect | ImGuiNET.OpenTK.Sample/SceneRender.cs:73-80 | the same for the depth renderbuffer |
| Scene.TargetBound | ImGuiNET.OpenTK.Sample/SceneRender.cs:50-60 | after "create if 0, then bind", a live non-zero framebuffer is bound; the framebuffer map is unchanged when one was cached, and otherwise gains exactly one new framebuffer without attachments; no texture or renderbuffer changes |
| Scene.ReallocateReplaces | ImGuiNET.OpenTK.Sample/SceneRender.cs:46-80 | the reallocation keeps a non-zero framebuffer or creates one, and gives the three handles consecutive names from this model's allocator (see Left out); the framebuffer then holds exactly the two new attachments; the old texture and renderbuffer are gone, the new ones have the panel size, and no other object changes |
| Scene.ReallocateAttaches | ImGuiNET.OpenTK.Sample/SceneRender.cs:60-80 | after the reallocation, the invariants hold and the bound framebuffer is the cached one, with colour and depth images both of the panel size |
| Scene.ReallocateLog | ImGuiNET.OpenTK.Sample/SceneRender.cs:50-80 | the reallocation's calls in order: optional GenFramebuffer and BindFramebuffer, then BindFramebuffer; the optional delete of the old texture, then Gen, Bind, TexImage2D and FramebufferTexture2D; the optional delete of the old renderbuffer, then Gen, Bind, RenderbufferStorage and FramebufferRenderbuffer |
| SceneCounts.ReallocateCounts | ImGuiNET.OpenTK.Sample/SceneRender.cs:46-91 | a resize creates a framebuffer only when the handle is 0; it always creates one texture and one renderbuffer; it deletes each old attachment only when its handle is positive; it queries no status (the one status query of a resize is counted by `FrameCounts`) |
| SceneCounts.RenderCounts | ImGuiNET.OpenTK.Sample/SceneRender.cs:100-126 | drawing and publishing create, delete and query nothing; they issue two Clear calls and one DrawArrays call exactly when the check after binding passes, and none otherwise |
| SceneCounts.FrameCounts | ImGuiNET.OpenTK.Sample/SceneRender.cs:30-130 | one frame adds the resize's calls, including one status query, exactly when the entry check passes and the size changed, and adds two Clear calls and one DrawArrays call exactly when it got as far as drawing |
| SceneProperties.SizeUnchangedAllocatesNothing | ImGuiNET.OpenTK.Sample/SceneRender.cs:93-98 | with an unchanged size, the cached fields and all objects stay the same, and nothing is created, deleted or queried |
| SceneProperties.SizeChangeReallocates | ImGuiNET.OpenTK.Sample/SceneRender.cs:46-80 | given a passing entry check and a changed size, the frame records the size, keeps or creates the framebuffer, and swaps in a new texture and renderbuffer of the new size whose names were not live before; this holds however the frame ends (see Left out for what that rests on) |
| SceneProperties.ReallocatesIffSizeChanged | ImGuiNET.OpenTK.Sample/SceneRender.cs:46-98 | given a passing entry check, a texture is created, and likewise a renderbuffer, if and only if the measured size differs from the cached one; under this model's allocator the cached texture handle changes under the same condition (see Left out) |
| SceneProperties.RenderFacts | ImGuiNET.OpenTK.Sample/SceneRender.cs:100-124 | rendering only appends to the log and never raises IncompleteFramebuffer; on completion it has drawn into the bound framebuffer with the panel-size viewport, and ends on framebuffer 0 with the client viewport and the texture shown |
| SceneProperties.OldAttachmentsDeletedFirst | ImGuiNET.OpenTK.Sample/SceneRender.cs:62-76 | on a resize, the old texture is deleted by the call just before the one that creates its replacement, and the same holds for the old renderbuffer |
| SceneProperties.ReallocateDeletesFirst | ImGuiNET.OpenTK.Sample/SceneRender.cs:62-76 | the same at fixed positions of the reallocation's own log |
| SceneProperties.IncompleteThrowsBeforeDrawing | ImGuiNET.OpenTK.Sample/SceneRender.cs:88-91 | given a passing entry check, IncompleteFramebuffer is thrown exactly when the size changed and the driver rejects two attachments of the new size; then nothing is drawn or shown, and the new size is already cached |
| SceneProperties.CompletedFrameRestores | ImGuiNET.OpenTK.Sample/SceneRender.cs:100-124 | a completed frame drew into the cached framebuffer with the panel-size viewport, and ends with framebuffer 0 bound, the client viewport, and the cached texture bound and shown |
| SceneProperties.ResizeCompletes | ImGuiNET.OpenTK.Sample/SceneRender.cs:46-124 | the same for a frame that reallocated |
| SceneProperties.FirstFrameAtZeroSize | ImGuiNET.OpenTK.Sample/SceneRender.cs:15-51 | a new render target whose first panel is (0, 0) allocates nothing; if the frame completes, it draws into framebuffer 0 and shows texture 0 |
| SceneProperties.NoRetryAfterIncomplete | ImGuiNET.OpenTK.Sample/SceneRender.cs:46-91 | after an IncompleteFramebuffer frame, the next frame at the same size allocates and queries nothing; if it completes, it draws into the rejected framebuffer |
| SceneProperties.FramebufferCreatedWhileUnset | ImGuiNET.OpenTK.Sample/SceneRender.cs:50-57 | a frame creates a framebuffer only while the handle is 0, and then caches it; a non-zero handle never changes |
| SceneProperties.DisposeDeletesOnlyFramebuffer | ImGuiNET.OpenTK.Sample/SceneRender.cs:132-136 | Dispose removes the framebuffer; the texture and renderbuffer maps are unchanged and the cached attachments stay live |
| SceneProperties.SecondDisposeChangesNothing | ImGuiNET.OpenTK.Sample/SceneRender.cs:132-136 | a second Dispose logs the delete again and changes no object |
| SceneProperties.CompletedFrameAllocates | ImGuiNET.OpenTK.Sample/SceneRender.cs:46-98 | a completed frame creates one texture and one renderbuffer if the size changed and none otherwise, and caches the measured size |
| SceneProperties.RunAllocatesOncePerSizeChange | ImGuiNET.OpenTK.Sample/SceneRender.cs:46-80 | over frames that all complete, the textures and renderbuffers created number exactly the changes of measured size from frame to frame |
| SceneProperties.RunEndsAtLastSize | ImGuiNET.OpenTK.Sample/SceneRender.cs:46-48 | after frames that all complete, the cached size is the last frame's measured size |
| SceneProperties.RunCreatesFramebufferOnce | ImGuiNET.OpenTK.Sample/SceneRender.cs:50-57 | over any run of frames, at most one framebuffer is created, and a non-zero handle never changes |
| SceneProperties.FrameStaysConfined | ImGuiNET.OpenTK.Sample/SceneRender.cs:46-98 | one frame keeps the pre-existing objects untouched and keeps every newer live object among the cached handles |
| SceneProperties.RunStaysConfined | ImGuiNET.OpenTK.Sample/SceneRender.cs:46-98 | the same, and the invariants, over any run of frames |
| SceneProperties.RunLeaksNothing | ImGuiNET.OpenTK.Sample/SceneRender.cs:46-80 | from a new render target, however many resizes happen and however the run ends, the new live objects are at most the cached framebuffer, texture and renderbuffer, and older objects are untouched |
| OpenGl.Gl.GenFramebuffer | ImGuiNET.OpenTK.Sample/SceneRender.cs:53 | returns the allocator's next name and makes it a live framebuffer without attachments |
| OpenGl.Gl.BindFramebuffer | ImGuiNET.OpenTK.Sample/SceneRender.cs:55 | binds the given framebuffer |
| OpenGl.Gl.GenTexture | ImGuiNET.OpenTK.Sample/SceneRender.cs:65 | returns the next name as a new live texture |
| OpenGl.Gl.BindTexture | ImGuiNET.OpenTK.Sample/SceneRender.cs:66 | binds the given texture |
| OpenGl.Gl.TexImage2D | ImGuiNET.OpenTK.Sample/SceneRender.cs:68 | gives the bound texture an image of the given size |
| OpenGl.Gl.FramebufferTexture2D | ImGuiNET.OpenTK.Sample/SceneRender.cs:71 | makes the texture the colour attachment of the bound framebuffer |
| OpenGl.Gl.DeleteTexture | ImGuiNET.OpenTK.Sample/SceneRender.cs:63 | removes a live texture, unbinds it, and detaches it from the bound framebuffer; does nothing to a dead name |
| OpenGl.Gl.GenRenderbuffer | ImGuiNET.OpenTK.Sample/SceneRender.cs:76 | returns the next name as a new live renderbuffer |
| OpenGl.Gl.BindRenderbuffer | ImGuiNET.OpenTK.Sample/SceneRender.cs:77 | binds the given renderbuffer |
| OpenGl.Gl.RenderbufferStorage | ImGuiNET.OpenTK.Sample/SceneRender.cs:79 | gives the bound renderbuffer storage of the given size |
| OpenGl.Gl.FramebufferRenderbuffer | ImGuiNET.OpenTK.Sample/SceneRender.cs:80 | makes the renderbuffer the depth attachment of the bound framebuffer |
| OpenGl.Gl.DeleteRenderbuffer | ImGuiNET.OpenTK.Sample/SceneRender.cs:74 | removes a live renderbuffer, unbinds it, and detaches it from the bound framebuffer |
| OpenGl.Gl.CheckFramebufferStatus | ImGuiNET.OpenTK.Sample/SceneRender.cs:89 | reports completeness: the default framebuffer is complete; otherwise the driver's verdict on the bound framebuffer's two attachment images |
| OpenGl.Gl.DeleteFramebuffer | ImGuiNET.OpenTK.Sample/SceneRender.cs:135 | removes a live framebuffer and unbinds it; does nothing to a dead name |
| OpenGl.Gl.Viewport | ImGuiNET.OpenTK.Sample/SceneRender.cs:101 | sets the viewport rectangle |
| OpenGl.Gl.Clear | ImGuiNET.OpenTK.Sample/SceneRender.cs:106 | clears the bound framebuffer |
| OpenGl.Gl.DrawArrays | ImGuiNET.OpenTK.Sample/TriangleDrawer.cs:72 | draws into the bound framebuffer with the current viewport |
| OpenGl.Gl.GetError | ImGuiNET.OpenTK.Sample/Program.cs:18 | returns the driver's pending error code and logs the query |

## Left out

- ImGui is not modelled: `Begin`/`BeginChild`/`EndChild`/`End`, `GetWindowSize` and
  `Image`. The measured panel size and the window's client size are inputs of each frame.
  The texture passed to `Image` is the frame's `shown` result. When a frame throws,
  `EndChild`/`End` are skipped; this is not modelled.
- A texture or renderbuffer that has been created but not yet given storage is recorded
  with size (0, 0), so the completeness test sees it as a 0 x 0 image rather than as no
  image. No frame observes this: every `GenTexture`/`GenRenderbuffer` of the viewport is
  followed by its `TexImage2D`/`RenderbufferStorage` before the completeness query.
- Sizes are non-negative integers. The float-to-int truncation of the ImGui size and
  `Vector2i` arithmetic are not modelled.
- Calls that affect no modelled state are left out: `ObjectLabel`, `TexParameter`,
  `ActiveTexture` and both `ClearColor` calls. The pixel formats of `TexImage2D` and
  `RenderbufferStorage` are not modelled either.
- `TriangleDrawer` is not part of this model beyond what one frame asks of it: its
  `OnResize` sets the viewport, and its `OnRenderFrame` clears and issues one draw call.
  Its `OnLoad` buffers and shaders, its `UseProgram`/`BindVertexArray` calls, and
  `OnClosed` (called by `Dispose`) are left out.
- OpenGL's own rules for errors and for framebuffer completeness are not modelled. The code
  `glGetError` reports and the completeness verdict are arbitrary function parameters, and
  the properties hold for every choice of them. The synchronous debug callback in
  `Window.cs`, which can throw from inside any GL call, is left out.
- Every GL call is assumed to take effect. In OpenGL a command that raises an error is
  ignored; here the error only surfaces at the next `Error.Check`, and the call's effect on
  the objects is applied all the same. Frames that complete are unaffected, because every
  check along them passed. For a frame that throws a GL error, the claims about the objects
  it leaves behind rest on this assumption: the sizes of the new attachments in
  `SizeChangeReallocates`, and the "both of the cached size" part of `Owns` kept by
  `FrameKeepsOwnership`, `ResizeKeepsOwnership` and the run lemmas built on them.
- One allocator hands out the names of framebuffers, textures and renderbuffers alike, and
  it never reuses a name. OpenGL keeps one name space per kind of object and may return a
  just-deleted name from `glGenTextures` or `glGenRenderbuffers`, so after
  `SceneRender.cs:63-65` the new colour texture may carry the old handle. The facts below are
  facts of this allocator; what the program issues (which call deletes, which call creates,
  and which objects are live afterwards) does not depend on it.
- ReallocateReplaces: "consecutive names", and the new handles being different from every
  handle live before, hold for this model's allocator only.
- ReallocatesIffSizeChanged: "the cached texture handle changes exactly when the size
  changed" holds for this model's allocator only; the creation counts do not depend on it.
- SizeChangeReallocates: the new texture and renderbuffer names not being live before the
  frame holds for this model's allocator only (OpenGL only promises that a generated name is
  not live when it is generated).
- ReplaceColorEffect, ReplaceDepthEffect, Scene.SceneRender.NewColorTexture and
  Scene.SceneRender.NewDepthBuffer: the new handle being "the allocator's next name" is a fact
  of this allocator.
- RunStaysConfined and RunLeaksNothing are proved through the predicate `Confined`, whose
  clause "the cached handles are at least the allocator's next name before the run" is a
  fact of this allocator.
- `Run` feeds one frame's final GL state directly into the next frame. The calls `Window`
  makes between two `DrawViewportWindow` calls (clears, ImGui's own rendering, buffer swap)
  are not modelled, and neither is `OnUnload`.
- An exception is a result value (`Outcome`). How it unwinds through the caller's stack is
  not modelled.
