/** An abstract model of the part of the OpenGL 4 API that the viewport render target drives.

    Object names come from one allocator that never hands out a name twice; the live
    framebuffers, textures and renderbuffers are maps from name to what the model needs to
    know about them; every call is appended to a log, so that the order of calls can be
    stated. What the driver decides on its own (the error flag read by GetError and the
    verdict of the completeness test) comes from two oracles. */
module OpenGl {

  /** A pixel size. The sizes the viewport deals with (a GUI panel, a window client area) are
      never negative. */
  datatype Size = Size(x: nat, y: nat)

  /** A viewport rectangle, as passed to GL.Viewport. */
  datatype Rect = Rect(x: int, y: int, width: int, height: int)

  datatype ErrorCode =
    | NoError
    | InvalidEnum
    | InvalidValue
    | InvalidOperation
    | InvalidFramebufferOperation
    | OutOfMemory

  /** The two attachment points of a framebuffer object that the viewport uses;
      0 means that nothing is attached. */
  datatype Attachments = Attachments(color: int, depth: int)

  /** What an attachment point presents to the completeness test. */
  datatype Image = NoImage | Image(size: Size)

  datatype Kind = FramebufferKind | TextureKind | RenderbufferKind

  /** One entry of the call log. Clear and DrawArrays record the framebuffer they drew into
      (and DrawArrays the viewport), CheckFramebufferStatus and GetError what the driver
      answered. */
  datatype Call =
    | GenFramebuffer(name: int)
    | BindFramebuffer(framebuffer: int)
    | DeleteFramebuffer(framebuffer: int)
    | GenTexture(name: int)
    | BindTexture(texture: int)
    | TexImage2D(size: Size)
    | FramebufferTexture2D(texture: int)
    | DeleteTexture(texture: int)
    | GenRenderbuffer(name: int)
    | BindRenderbuffer(renderbuffer: int)
    | RenderbufferStorage(size: Size)
    | FramebufferRenderbuffer(renderbuffer: int)
    | DeleteRenderbuffer(renderbuffer: int)
    | CheckFramebufferStatus(complete: bool)
    | Viewport(rect: Rect)
    | Clear(framebuffer: int)
    | DrawArrays(framebuffer: int, viewport: Rect)
    | GetError(code: ErrorCode)
  {
    /** Is this call an instance of event e? */
    predicate Is(e: Event) {
      match e
      case Created(k) =>
        (k == FramebufferKind && GenFramebuffer?) ||
        (k == TextureKind && GenTexture?) ||
        (k == RenderbufferKind && GenRenderbuffer?)
      case Deleted(k) =>
        (k == FramebufferKind && DeleteFramebuffer?) ||
        (k == TextureKind && DeleteTexture?) ||
        (k == RenderbufferKind && DeleteRenderbuffer?)
      case Cleared => Clear?
      case Drawn => DrawArrays?
      case StatusQueried => CheckFramebufferStatus?
    }
  }

  /** The kinds of calls the properties of the viewport count. */
  datatype Event = Created(kind: Kind) | Deleted(kind: Kind) | Cleared | Drawn | StatusQueried

  /** The driver's error flag: the code GetError reports after the given history of calls. */
  type ErrorOracle = seq<Call> -> ErrorCode

  /** The driver's completeness verdict on a framebuffer's colour and depth attachments. */
  type CompletenessOracle = (Image, Image) -> bool

  /** The number of calls in a log that are instances of event e. */
  function Occurrences(log: seq<Call>, e: Event): (n: nat) {
    if log == [] then 0
    else Occurrences(log[..|log| - 1], e) + (if log[|log| - 1].Is(e) then 1 else 0)
  }

  /** Appending one call adds one occurrence exactly when the call is an instance of the event. */
  lemma OccurrencesSnoc(log: seq<Call>, c: Call, e: Event)
    ensures Occurrences(log + [c], e) == Occurrences(log, e) + (if c.Is(e) then 1 else 0)
  {
    assert (log + [c])[..|log|] == log;
  }

  /** The same for all logs at once, so that a chain of GL calls is counted call by call. */
  lemma {:induction false} OccurrencesAppend()
    ensures forall log: seq<Call>, c: Call, e: Event {:trigger Occurrences(log + [c], e)} ::
              Occurrences(log + [c], e) == Occurrences(log, e) + (if c.Is(e) then 1 else 0)
  {
    forall log: seq<Call>, c: Call, e: Event
      ensures Occurrences(log + [c], e) == Occurrences(log, e) + (if c.Is(e) then 1 else 0)
    {
      assert (log + [c])[..|log|] == log;
    }
  }

  /** Counting over two logs is counting over each. */
  lemma {:induction false} OccurrencesConcat(a: seq<Call>, b: seq<Call>, e: Event)
    ensures Occurrences(a + b, e) == Occurrences(a, e) + Occurrences(b, e)
    decreases |b|
  {
    if b != [] {
      var b' := b[..|b| - 1];
      OccurrencesConcat(a, b', e);
      assert a + b == (a + b') + [b[|b| - 1]];
      assert b == b' + [b[|b| - 1]];
      OccurrencesSnoc(a + b', b[|b| - 1], e);
      OccurrencesSnoc(b', b[|b| - 1], e);
    } else {
      assert a + b == a;
    }
  }

  /** The image behind attachment `name`, given the live objects of its kind. A texture or
      renderbuffer that was created but never given storage is recorded with size (0, 0), so
      it is presented here as a 0 x 0 image, the same value a TexImage2D or
      RenderbufferStorage call of size (0, 0) leaves behind. The viewport never shows the
      difference: it gives every new attachment its storage right after creating it. */
  function ImageOf(name: int, live: map<int, Size>): (image: Image) {
    if name != 0 && name in live then Image(live[name]) else NoImage
  }

  datatype GlState = GlState(
    nextName: int,
    framebuffers: map<int, Attachments>,
    textures: map<int, Size>,
    renderbuffers: map<int, Size>,
    boundFramebuffer: int,
    boundTexture: int,
    boundRenderbuffer: int,
    viewport: Rect,
    log: seq<Call>)
  {
    /** Every live name is positive and was handed out by the allocator. */
    ghost predicate Valid() {
      1 <= nextName &&
      (forall n :: n in framebuffers ==> 1 <= n < nextName) &&
      (forall n :: n in textures ==> 1 <= n < nextName) &&
      (forall n :: n in renderbuffers ==> 1 <= n < nextName)
    }

    function Record(c: Call): (after: GlState) {
      this.(log := log + [c])
    }

    function GenFramebuffer(): (after: GlState) {
      this.(nextName := nextName + 1,
            framebuffers := framebuffers[nextName := Attachments(0, 0)],
            log := log + [Call.GenFramebuffer(nextName)])
    }

    function BindFramebuffer(fb: int): (after: GlState) {
      this.(boundFramebuffer := fb, log := log + [Call.BindFramebuffer(fb)])
    }

    /** Deleting the bound framebuffer reverts the binding to the default framebuffer;
        0 and names that are not live are ignored. */
    function DeleteFramebuffer(fb: int): (after: GlState) {
      var g := if fb == 0 || fb !in framebuffers then this
               else this.(framebuffers := framebuffers - {fb},
                          boundFramebuffer := if boundFramebuffer == fb then 0 else boundFramebuffer);
      g.(log := log + [Call.DeleteFramebuffer(fb)])
    }

    /** A new texture has no image yet, which the model records as a 0 x 0 image. */
    function GenTexture(): (after: GlState) {
      this.(nextName := nextName + 1,
            textures := textures[nextName := Size(0, 0)],
            log := log + [Call.GenTexture(nextName)])
    }

    function BindTexture(t: int): (after: GlState) {
      this.(boundTexture := t, log := log + [Call.BindTexture(t)])
    }

    /** Specifies the image of the bound texture. */
    function TexImage2D(size: Size): (after: GlState) {
      var g := if boundTexture != 0 && boundTexture in textures
               then this.(textures := textures[boundTexture := size]) else this;
      g.(log := log + [Call.TexImage2D(size)])
    }

    /** Attaches texture t to colour attachment 0 of the bound framebuffer. */
    function FramebufferTexture2D(t: int): (after: GlState) {
      var g := if boundFramebuffer != 0 && boundFramebuffer in framebuffers
               then this.(framebuffers := framebuffers[boundFramebuffer := framebuffers[boundFramebuffer].(color := t)])
               else this;
      g.(log := log + [Call.FramebufferTexture2D(t)])
    }

    /** Deleting a texture unbinds it and detaches it from the bound framebuffer. */
    function DeleteTexture(t: int): (after: GlState) {
      var fbs := if boundFramebuffer in framebuffers && framebuffers[boundFramebuffer].color == t
                 then framebuffers[boundFramebuffer := framebuffers[boundFramebuffer].(color := 0)]
                 else framebuffers;
      var g := if t == 0 || t !in textures then this
               else this.(textures := textures - {t},
                          boundTexture := if boundTexture == t then 0 else boundTexture,
                          framebuffers := fbs);
      g.(log := log + [Call.DeleteTexture(t)])
    }

    function GenRenderbuffer(): (after: GlState) {
      this.(nextName := nextName + 1,
            renderbuffers := renderbuffers[nextName := Size(0, 0)],
            log := log + [Call.GenRenderbuffer(nextName)])
    }

    function BindRenderbuffer(r: int): (after: GlState) {
      this.(boundRenderbuffer := r, log := log + [Call.BindRenderbuffer(r)])
    }

    /** Allocates the storage of the bound renderbuffer. */
    function RenderbufferStorage(size: Size): (after: GlState) {
      var g := if boundRenderbuffer != 0 && boundRenderbuffer in renderbuffers
               then this.(renderbuffers := renderbuffers[boundRenderbuffer := size]) else this;
      g.(log := log + [Call.RenderbufferStorage(size)])
    }

    /** Attaches renderbuffer r to the depth attachment of the bound framebuffer. */
    function FramebufferRenderbuffer(r: int): (after: GlState) {
      var g := if boundFramebuffer != 0 && boundFramebuffer in framebuffers
               then this.(framebuffers := framebuffers[boundFramebuffer := framebuffers[boundFramebuffer].(depth := r)])
               else this;
      g.(log := log + [Call.FramebufferRenderbuffer(r)])
    }

    /** Deleting a renderbuffer unbinds it and detaches it from the bound framebuffer. */
    function DeleteRenderbuffer(r: int): (after: GlState) {
      var fbs := if boundFramebuffer in framebuffers && framebuffers[boundFramebuffer].depth == r
                 then framebuffers[boundFramebuffer := framebuffers[boundFramebuffer].(depth := 0)]
                 else framebuffers;
      var g := if r == 0 || r !in renderbuffers then this
               else this.(renderbuffers := renderbuffers - {r},
                          boundRenderbuffer := if boundRenderbuffer == r then 0 else boundRenderbuffer,
                          framebuffers := fbs);
      g.(log := log + [Call.DeleteRenderbuffer(r)])
    }

    function ColorImage(): (image: Image) {
      if boundFramebuffer in framebuffers
      then ImageOf(framebuffers[boundFramebuffer].color, textures) else NoImage
    }

    function DepthImage(): (image: Image) {
      if boundFramebuffer in framebuffers
      then ImageOf(framebuffers[boundFramebuffer].depth, renderbuffers) else NoImage
    }

    /** The completeness status of the bound framebuffer; the default framebuffer is complete. */
    function IsComplete(complete: CompletenessOracle): (isComplete: bool) {
      boundFramebuffer == 0 ||
      (boundFramebuffer in framebuffers && complete(ColorImage(), DepthImage()))
    }

    function CheckFramebufferStatus(complete: CompletenessOracle): (after: GlState) {
      Record(Call.CheckFramebufferStatus(IsComplete(complete)))
    }

    function Viewport(r: Rect): (after: GlState) {
      this.(viewport := r, log := log + [Call.Viewport(r)])
    }

    function Clear(): (after: GlState) {
      Record(Call.Clear(boundFramebuffer))
    }

    function DrawArrays(): (after: GlState) {
      Record(Call.DrawArrays(boundFramebuffer, viewport))
    }

    /** The code the next GetError reports. */
    function PendingError(errorOf: ErrorOracle): (code: ErrorCode) {
      errorOf(log)
    }

    function GetError(errorOf: ErrorOracle): (after: GlState) {
      Record(Call.GetError(errorOf(log)))
    }
  }

  /** The GL context: the driver state that the GL.* calls update in place. */
  class Gl {
    var nextName: int
    var framebuffers: map<int, Attachments>
    var textures: map<int, Size>
    var renderbuffers: map<int, Size>
    var boundFramebuffer: int
    var boundTexture: int
    var boundRenderbuffer: int
    var viewport: Rect
    var log: seq<Call>
    const errorOf: ErrorOracle
    const complete: CompletenessOracle

    function State(): (state: GlState)
      reads this
    {
      GlState(nextName, framebuffers, textures, renderbuffers,
              boundFramebuffer, boundTexture, boundRenderbuffer, viewport, log)
    }

    ghost predicate Valid()
      reads this
    {
      State().Valid()
    }

    /** A fresh context: no objects, the default framebuffer bound, the viewport given. */
    constructor (errorOf: ErrorOracle, complete: CompletenessOracle, viewport: Rect)
      ensures Valid()
      ensures State() == GlState(1, map[], map[], map[], 0, 0, 0, viewport, [])
      ensures this.errorOf == errorOf && this.complete == complete
    {
      nextName := 1;
      framebuffers, textures, renderbuffers := map[], map[], map[];
      boundFramebuffer, boundTexture, boundRenderbuffer := 0, 0, 0;
      this.viewport := viewport;
      log := [];
      this.errorOf := errorOf;
      this.complete := complete;
    }

    method GenFramebuffer() returns (name: int)
      modifies this
      ensures name == old(nextName)
      ensures State() == old(State()).GenFramebuffer()
    {
      name := nextName;
      framebuffers := framebuffers[name := Attachments(0, 0)];
      nextName := nextName + 1;
      log := log + [Call.GenFramebuffer(name)];
    }

    method BindFramebuffer(fb: int)
      modifies this
      ensures State() == old(State()).BindFramebuffer(fb)
    {
      boundFramebuffer := fb;
      log := log + [Call.BindFramebuffer(fb)];
    }

    method DeleteFramebuffer(fb: int)
      modifies this
      ensures State() == old(State()).DeleteFramebuffer(fb)
    {
      if fb != 0 && fb in framebuffers {
        framebuffers := framebuffers - {fb};
        if boundFramebuffer == fb {
          boundFramebuffer := 0;
        }
      }
      log := log + [Call.DeleteFramebuffer(fb)];
    }

    method GenTexture() returns (name: int)
      modifies this
      ensures name == old(nextName)
      ensures State() == old(State()).GenTexture()
    {
      name := nextName;
      textures := textures[name := Size(0, 0)];
      nextName := nextName + 1;
      log := log + [Call.GenTexture(name)];
    }

    method BindTexture(t: int)
      modifies this
      ensures State() == old(State()).BindTexture(t)
    {
      boundTexture := t;
      log := log + [Call.BindTexture(t)];
    }

    method TexImage2D(size: Size)
      modifies this
      ensures State() == old(State()).TexImage2D(size)
    {
      if boundTexture != 0 && boundTexture in textures {
        textures := textures[boundTexture := size];
      }
      log := log + [Call.TexImage2D(size)];
    }

    method FramebufferTexture2D(t: int)
      modifies this
      ensures State() == old(State()).FramebufferTexture2D(t)
    {
      if boundFramebuffer != 0 && boundFramebuffer in framebuffers {
        framebuffers := framebuffers[boundFramebuffer := framebuffers[boundFramebuffer].(color := t)];
      }
      log := log + [Call.FramebufferTexture2D(t)];
    }

    method DeleteTexture(t: int)
      modifies this
      ensures State() == old(State()).DeleteTexture(t)
    {
      if t != 0 && t in textures {
        textures := textures - {t};
        if boundTexture == t {
          boundTexture := 0;
        }
        if boundFramebuffer in framebuffers && framebuffers[boundFramebuffer].color == t {
          framebuffers := framebuffers[boundFramebuffer := framebuffers[boundFramebuffer].(color := 0)];
        }
      }
      log := log + [Call.DeleteTexture(t)];
    }

    method GenRenderbuffer() returns (name: int)
      modifies this
      ensures name == old(nextName)
      ensures State() == old(State()).GenRenderbuffer()
    {
      name := nextName;
      renderbuffers := renderbuffers[name := Size(0, 0)];
      nextName := nextName + 1;
      log := log + [Call.GenRenderbuffer(name)];
    }

    method BindRenderbuffer(r: int)
      modifies this
      ensures State() == old(State()).BindRenderbuffer(r)
    {
      boundRenderbuffer := r;
      log := log + [Call.BindRenderbuffer(r)];
    }

    method RenderbufferStorage(size: Size)
      modifies this
      ensures State() == old(State()).RenderbufferStorage(size)
    {
      if boundRenderbuffer != 0 && boundRenderbuffer in renderbuffers {
        renderbuffers := renderbuffers[boundRenderbuffer := size];
      }
      log := log + [Call.RenderbufferStorage(size)];
    }

    method FramebufferRenderbuffer(r: int)
      modifies this
      ensures State() == old(State()).FramebufferRenderbuffer(r)
    {
      if boundFramebuffer != 0 && boundFramebuffer in framebuffers {
        framebuffers := framebuffers[boundFramebuffer := framebuffers[boundFramebuffer].(depth := r)];
      }
      log := log + [Call.FramebufferRenderbuffer(r)];
    }

    method DeleteRenderbuffer(r: int)
      modifies this
      ensures State() == old(State()).DeleteRenderbuffer(r)
    {
      if r != 0 && r in renderbuffers {
        renderbuffers := renderbuffers - {r};
        if boundRenderbuffer == r {
          boundRenderbuffer := 0;
        }
        if boundFramebuffer in framebuffers && framebuffers[boundFramebuffer].depth == r {
          framebuffers := framebuffers[boundFramebuffer := framebuffers[boundFramebuffer].(depth := 0)];
        }
      }
      log := log + [Call.DeleteRenderbuffer(r)];
    }

    method CheckFramebufferStatus() returns (isComplete: bool)
      modifies this
      ensures isComplete == old(State()).IsComplete(complete)
      ensures State() == old(State()).CheckFramebufferStatus(complete)
    {
      isComplete := State().IsComplete(complete);
      log := log + [Call.CheckFramebufferStatus(isComplete)];
    }

    method Viewport(r: Rect)
      modifies this
      ensures State() == old(State()).Viewport(r)
    {
      viewport := r;
      log := log + [Call.Viewport(r)];
    }

    method Clear()
      modifies this
      ensures State() == old(State()).Clear()
    {
      log := log + [Call.Clear(boundFramebuffer)];
    }

    method DrawArrays()
      modifies this
      ensures State() == old(State()).DrawArrays()
    {
      log := log + [Call.DrawArrays(boundFramebuffer, viewport)];
    }

    method GetError() returns (code: ErrorCode)
      modifies this
      ensures code == old(State()).PendingError(errorOf)
      ensures State() == old(State()).GetError(errorOf)
    {
      code := errorOf(log);
      log := log + [Call.GetError(code)];
    }
  }
}
