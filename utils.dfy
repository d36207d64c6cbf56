/**
  GL error reporting (`src/core/Utils.cpp`): the message table of the error
  codes of section 2.3.1 (Table 2.3) of the OpenGL 4.6 Core Profile
  specification with a hexadecimal fallback, and the de-duplicating
  reporter `PrintGLErrorImpl`.
*/
module Utils {
  import opened GL

  const GL_NO_ERROR: uint32 := 0
  const GL_INVALID_ENUM: uint32 := 0x0500
  const GL_INVALID_VALUE: uint32 := 0x0501
  const GL_INVALID_OPERATION: uint32 := 0x0502
  const GL_OUT_OF_MEMORY: uint32 := 0x0505
  const GL_INVALID_FRAMEBUFFER_OPERATION: uint32 := 0x0506

  /** The `%X` digit for `d`. */
  function HexChar(d: nat): (c: char)
    requires d < 16
    ensures c in "0123456789ABCDEF"
  {
    if d < 10 then ('0' as int + d) as char else ('A' as int + d - 10) as char
  }

  /** The value of one hexadecimal digit, of either case. */
  function DigitValue(c: char): nat
  {
    if '0' <= c <= '9' then (c as int - '0' as int) as nat
    else if 'A' <= c <= 'F' then (c as int - 'A' as int) as nat + 10
    else if 'a' <= c <= 'f' then (c as int - 'a' as int) as nat + 10
    else 0
  }

  /** The `%X` digits of `n`: upper-case hexadecimal, no padding, no leading zero. */
  function HexDigits(n: nat): (r: string)
    ensures |r| >= 1
    ensures forall i :: 0 <= i < |r| ==> r[i] in "0123456789ABCDEF"
    ensures n > 0 ==> r[0] != '0'
    ensures n == 0 ==> r == "0"
    decreases n
  {
    if n < 16 then [HexChar(n)] else HexDigits(n / 16) + [HexChar(n % 16)]
  }

  /** Reads a string of digits in base `base` (8, 10 or 16) as a number. */
  function ParseDigits(s: string, base: nat): nat
  {
    if s == [] then 0 else ParseDigits(s[..|s| - 1], base) * base + DigitValue(s[|s| - 1])
  }

  /** `HexDigits` loses nothing: its digits read back as the number. */
  lemma {:induction false} ParseHexDigits(n: nat)
    ensures ParseDigits(HexDigits(n), 16) == n
    decreases n
  {
    var r := HexDigits(n);
    if n < 16 {
      assert r[..|r| - 1] == [];
      assert DigitValue(HexChar(n)) == n;
    } else {
      assert r[..|r| - 1] == HexDigits(n / 16);
      assert DigitValue(r[|r| - 1]) == n % 16 by {
        assert r[|r| - 1] == HexChar(n % 16);
      }
      ParseHexDigits(n / 16);
      assert n == (n / 16) * 16 + n % 16;
    }
  }

  /** Different numbers have different `%X` digits. */
  lemma HexDigitsInjective(a: nat, b: nat)
    requires HexDigits(a) == HexDigits(b)
    ensures a == b
  {
    ParseHexDigits(a);
    ParseHexDigits(b);
  }

  const NO_ERROR_MESSAGE: string := "GL_NO_ERROR: No error has been recorded."
  const INVALID_ENUM_MESSAGE: string := "GL_INVALID_ENUM: An unacceptable value is specified for an enumerated argument."
  const INVALID_VALUE_MESSAGE: string := "GL_INVALID_VALUE: A numeric argument is out of range.\n"
  const INVALID_OPERATION_MESSAGE: string := "GL_INVALID_OPERATION: The specified operation is not allowed in the current state."
  const OUT_OF_MEMORY_MESSAGE: string := "GL_OUT_OF_MEMORY: There is not enough memory left to execute the command."
  const INVALID_FRAMEBUFFER_OPERATION_MESSAGE: string := "GL_INVALID_FRAMEBUFFER_OPERATION: The framebuffer object is not complete."

  /**
    `GLErrorToString(error)`: the fixed message of each of the six codes
    (the one for `GL_INVALID_VALUE` ends with a newline), otherwise
    `"0x"` followed by `%X` of the code.
  */
  function GLErrorToString(error: uint32): string
  {
    if error == GL_NO_ERROR then NO_ERROR_MESSAGE
    else if error == GL_INVALID_ENUM then INVALID_ENUM_MESSAGE
    else if error == GL_INVALID_VALUE then INVALID_VALUE_MESSAGE
    else if error == GL_INVALID_OPERATION then INVALID_OPERATION_MESSAGE
    else if error == GL_OUT_OF_MEMORY then OUT_OF_MEMORY_MESSAGE
    else if error == GL_INVALID_FRAMEBUFFER_OPERATION then INVALID_FRAMEBUFFER_OPERATION_MESSAGE
    else "0x" + HexDigits(error)
  }

  /** The six codes with a message of their own. */
  predicate KnownError(error: uint32)
  {
    error == GL_NO_ERROR || error == GL_INVALID_ENUM || error == GL_INVALID_VALUE ||
    error == GL_INVALID_OPERATION || error == GL_OUT_OF_MEMORY || error == GL_INVALID_FRAMEBUFFER_OPERATION
  }

  /** The message of a code other than the six is `0x` and then its `%X` digits. */
  lemma UnknownErrorString(error: uint32)
    requires !KnownError(error)
    ensures GLErrorToString(error) == "0x" + HexDigits(error)
    ensures ParseDigits(GLErrorToString(error)[2..], 16) == error
  {
    assert GLErrorToString(error)[2..] == HexDigits(error);
    ParseHexDigits(error);
  }

  /** A code below `16^k` has at most `k` digits; a 32-bit code at most 8. */
  lemma {:induction false} HexDigitsLength(n: nat, k: nat)
    requires n < Pow16(k)
    ensures |HexDigits(n)| <= k || (n == 0 && k == 0)
    decreases k
  {
    if n >= 16 {
      assert Pow16(0) == 1 && Pow16(1) == 16;
      assert k >= 2;
      assert n / 16 < Pow16(k - 1);
      HexDigitsLength(n / 16, k - 1);
    } else if k == 0 {
      assert n == 0;
    }
  }

  function Pow16(k: nat): (p: nat)
    ensures p >= 1
  {
    if k == 0 then 1 else 16 * Pow16(k - 1)
  }

  /** The fixed messages are all longer than any fallback, and only two of them share a length. */
  lemma MessageLengths()
    ensures |NO_ERROR_MESSAGE| == 40
    ensures |INVALID_ENUM_MESSAGE| == 79
    ensures |INVALID_VALUE_MESSAGE| == 54
    ensures |INVALID_OPERATION_MESSAGE| == 82
    ensures |OUT_OF_MEMORY_MESSAGE| == 73 && OUT_OF_MEMORY_MESSAGE[71] == 'd'
    ensures |INVALID_FRAMEBUFFER_OPERATION_MESSAGE| == 73 && INVALID_FRAMEBUFFER_OPERATION_MESSAGE[71] == 'e'
  {
  }

  /** Every fixed message is at least 40 characters long. */
  lemma KnownErrorLength(error: uint32)
    requires KnownError(error)
    ensures |GLErrorToString(error)| >= 40
  {
    MessageLengths();
  }

  /** A fallback message is at most `"0x"` and eight digits long. */
  lemma UnknownErrorLength(error: uint32)
    requires !KnownError(error)
    ensures |GLErrorToString(error)| <= 10
  {
    UnknownErrorString(error);
    assert Pow16(8) == 0x1_0000_0000;
    HexDigitsLength(error, 8);
  }

  /** Two codes without a fixed message get different fallbacks. */
  lemma UnknownFallbacksDistinct(a: uint32, b: uint32)
    requires a != b && !KnownError(a) && !KnownError(b)
    ensures GLErrorToString(a) != GLErrorToString(b)
  {
    UnknownErrorString(a);
    UnknownErrorString(b);
  }

  /** The six fixed messages are pairwise different. */
  lemma KnownMessagesDistinct(a: uint32, b: uint32)
    requires a != b && KnownError(a) && KnownError(b)
    ensures GLErrorToString(a) != GLErrorToString(b)
  {
    MessageLengths();
    if a == GL_OUT_OF_MEMORY && b == GL_INVALID_FRAMEBUFFER_OPERATION {
      assert GLErrorToString(a)[71] != GLErrorToString(b)[71];
    } else if b == GL_OUT_OF_MEMORY && a == GL_INVALID_FRAMEBUFFER_OPERATION {
      assert GLErrorToString(a)[71] != GLErrorToString(b)[71];
    } else {
      assert |GLErrorToString(a)| != |GLErrorToString(b)|;
    }
  }

  /** A fixed message is never a fallback. */
  lemma KnownIsNoFallback(a: uint32, b: uint32)
    requires KnownError(a) && !KnownError(b)
    ensures GLErrorToString(a) != GLErrorToString(b)
  {
    KnownErrorLength(a);
    UnknownErrorLength(b);
  }

  /**
    No two codes share a message, so the message identifies the code: the
    six fixed messages differ from each other and from every fallback, and
    two fallbacks differ because their digits read back as their codes.
  */
  lemma ErrorStringsDistinct(a: uint32, b: uint32)
    requires a != b
    ensures GLErrorToString(a) != GLErrorToString(b)
  {
    if !KnownError(a) && !KnownError(b) {
      UnknownFallbacksDistinct(a, b);
    } else if KnownError(a) && KnownError(b) {
      KnownMessagesDistinct(a, b);
    } else if KnownError(a) {
      KnownIsNoFallback(a, b);
    } else {
      KnownIsNoFallback(b, a);
    }
  }

  /**
    A `const char*` naming a call site: the reporter compares sites by
    address, so two sites with the same text but different addresses are
    different sites.
  */
  datatype Site = Site(addr: nat, text: string)

  /** The line `PrintGLErrorImpl` prints for `error` at `where`. */
  function ErrorLine(where: Site, error: uint32): (line: string)
    ensures "GL error during " + where.text + ": " <= line
    ensures line[|line| - 1] == '\n'
  {
    "GL error during " + where.text + ": " + GLErrorToString(error) + "\n"
  }

  /**
    The statics of `PrintGLErrorImpl` (`prevError`, `prevErrorWhere`) and
    standard output, in a `DEBUG` or non-`DEBUG` build.
  */
  class ErrorReporter {
    /** `DEBUG` */
    const debug: bool
    var prevError: uint32
    /** `prevErrorWhere`; `None` is `NULL` */
    var prevWhere: Option<Site>
    /** every line printed so far */
    var output: seq<string>

    constructor (debug: bool)
      ensures this.debug == debug
      ensures prevError == 0 && prevWhere == None && output == []
    {
      this.debug := debug;
      prevError := 0;
      prevWhere := None;
      output := [];
    }

    /**
      `PrintGLErrorImpl(where)`, with `error` the value `glGetError()`
      returns. A non-`DEBUG` build returns at once. A zero error prints
      nothing and keeps the remembered pair; so does a repeat of the
      remembered error at the remembered site. Any other error is printed
      and remembered.
    */
    method Report(where: Site, error: uint32)
      modifies this`prevError, this`prevWhere, this`output
      ensures !debug || error == 0 || (error == old(prevError) && old(prevWhere) == Some(where)) ==>
                prevError == old(prevError) && prevWhere == old(prevWhere) && output == old(output)
      ensures debug && error != 0 && !(error == old(prevError) && old(prevWhere) == Some(where)) ==>
                prevError == error && prevWhere == Some(where) && output == old(output) + [ErrorLine(where, error)]
    {
      if !debug {
        return;
      }
      if error == 0 {
        return;
      } else if error == prevError && prevWhere == Some(where) {
        return;
      }
      prevError := error;
      prevWhere := Some(where);
      output := output + [ErrorLine(where, error)];
    }
  }

  /** A zero error between two equal errors at one site does not end the suppression. */
  method ZeroErrorKeepsSuppression(where: Site, error: uint32) returns (output: seq<string>)
    requires error != 0
    ensures output == [ErrorLine(where, error)]
  {
    var r := new ErrorReporter(true);
    r.Report(where, error);
    r.Report(where, 0);
    r.Report(where, error);
    output := r.output;
  }

  /** The same error at two sites with equal text but different addresses is printed twice. */
  method SitesCompareByAddress(text: string, error: uint32) returns (output: seq<string>)
    requires error != 0
    ensures |output| == 2 && output[0] == output[1] == ErrorLine(Site(1, text), error)
  {
    var r := new ErrorReporter(true);
    r.Report(Site(1, text), error);
    r.Report(Site(2, text), error);
    output := r.output;
  }

  /** A non-`DEBUG` build prints nothing, whatever the errors. */
  method NonDebugIsSilent(where: Site, e1: uint32, e2: uint32) returns (output: seq<string>)
    ensures output == []
  {
    var r := new ErrorReporter(false);
    r.Report(where, e1);
    r.Report(where, e2);
    output := r.output;
  }
}
