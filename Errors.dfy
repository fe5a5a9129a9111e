/** The synchronous error check that the viewport calls between its steps. */
module Errors {
  import opened OpenGl

  /** Error.Check: read the driver's error flag and throw when it reports an error.
      `ok` is false exactly where the source throws InvalidOperationException. */
  method Check(gl: Gl) returns (ok: bool)
    modifies gl
    ensures ok <==> old(gl.State()).PendingError(gl.errorOf) == NoError
    ensures gl.State() == old(gl.State()).GetError(gl.errorOf)
  {
    var code := gl.GetError();
    ok := code == NoError;
  }
}
