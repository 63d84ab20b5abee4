/**
 * core.api.Exception: the error type the marketplace throws. It carries an
 * HTTP status code, a message that is never falsy, a body returned as JSON,
 * and a marker that tells exceptions apart from other errors.
 */
module Exceptions {
  import opened Wrappers
  import opened JsValues

  /** The message of an exception constructed without a truthy first argument. */
  const UnknownError: string := "Unknown error"

  /** `args[0] || 'Unknown error'`. */
  function DefaultMessage(args: seq<JsVal>): (r: JsVal)
    ensures Truthy(r)
    ensures Truthy(At(args, 0)) ==> r == args[0]
    ensures !Truthy(At(args, 0)) ==> r == Str(UnknownError)
  {
    Or(At(args, 0), Str(UnknownError))
  }

  /** `args[1] || args[0]`: the raw first argument, not the defaulted message. */
  function DefaultBody(args: seq<JsVal>): (r: JsVal)
    ensures Truthy(At(args, 1)) ==> r == args[1]
    ensures !Truthy(At(args, 1)) ==> r == At(args, 0)
  {
    Or(At(args, 1), At(args, 0))
  }

  /** With no arguments at all the message is defaulted but the body stays undefined. */
  lemma NoArgumentsDefaults()
    ensures DefaultMessage([]) == Str(UnknownError)
    ensures DefaultBody([]) == Undefined
  {
  }

  /** Unless the first argument is an object, the message never renders as the empty string. */
  lemma MessageNeverRendersEmpty(args: seq<JsVal>)
    requires !At(args, 0).Obj?
    ensures ToStr(DefaultMessage(args)) != ""
  {
  }

  // ---------------------------------------------------------------------------
  // The "<code> - <ClassName>:<message>" format and a reader for it
  // ---------------------------------------------------------------------------

  /** The string toString() builds from its three parts. */
  function Describe(code: int, className: string, message: string): string {
    IntToString(code) + " - " + className + ":" + message
  }

  datatype Description = Description(code: int, className: string, message: string)

  /** The first position of `c` in `s`. */
  function IndexOf(s: string, c: char): (r: Option<nat>)
    ensures r.Some? ==> r.value < |s| && s[r.value] == c
    ensures r.Some? ==> forall k :: 0 <= k < r.value ==> s[k] != c
    ensures r.None? ==> c !in s
  {
    if |s| == 0 then None
    else if s[0] == c then Some(0)
    else match IndexOf(s[1..], c)
      case None => None
      case Some(k) => Some(k + 1)
  }

  lemma IndexOfAfterPrefix(a: string, b: string, c: char)
    requires c !in a && |b| > 0 && b[0] == c
    ensures IndexOf(a + b, c) == Some(|a|)
  {
    var r := IndexOf(a + b, c);
    assert (a + b)[|a|] == c;
    assert r.Some?;
    assert forall k :: 0 <= k < |a| ==> (a + b)[k] == a[k];
  }

  /** Splits a toString() result back into code, class name and message. */
  function ParseDescription(s: string): Option<Description> {
    match IndexOf(s, ' ')
    case None => None
    case Some(k) =>
      if k + 3 <= |s| && s[k..k + 3] == " - " then
        match ParseInt(s[..k])
        case None => None
        case Some(code) => ParseNameAndMessage(code, s[k + 3..])
      else None
  }

  /** Splits what follows "<code> - " at its first ':'. */
  function ParseNameAndMessage(code: int, t: string): Option<Description> {
    match IndexOf(t, ':')
    case None => None
    case Some(j) => Some(Description(code, t[..j], t[j + 1..]))
  }

  /** A printed integer holds no space, so the first space of a description ends the code. */
  lemma PrintedCodeHasNoSpace(code: int)
    ensures ' ' !in IntToString(code)
  {
    var c := IntToString(code);
    forall k | 0 <= k < |c| ensures c[k] != ' ' {
      assert IsDigit(c[k]) || c[k] == '-';
    }
  }

  /** The part after "<code> - " splits back into the class name and the message. */
  lemma NameAndMessageRoundTrip(code: int, className: string, message: string)
    requires ':' !in className
    ensures ParseNameAndMessage(code, className + (":" + message)) == Some(Description(code, className, message))
  {
    var t := className + (":" + message);
    IndexOfAfterPrefix(className, ":" + message, ':');
    assert t[..|className|] == className;
    assert t[|className| + 1..] == message;
  }

  /** The code is read back and the rest is handed on unchanged. */
  lemma CodeRoundTrip(code: int, rest: string)
    ensures ParseDescription(IntToString(code) + (" - " + rest)) == ParseNameAndMessage(code, rest)
  {
    var c := IntToString(code);
    var s := c + (" - " + rest);
    PrintedCodeHasNoSpace(code);
    IndexOfAfterPrefix(c, " - " + rest, ' ');
    assert s[..|c|] == c;
    assert s[|c|..|c| + 3] == " - ";
    assert s[|c| + 3..] == rest;
    IntToStringRoundTrip(code);
  }

  /** When the class name holds no ':', toString() loses none of its three parts. */
  lemma DescribeRoundTrip(code: int, className: string, message: string)
    requires ':' !in className
    ensures ParseDescription(Describe(code, className, message)) == Some(Description(code, className, message))
  {
    var rest := className + (":" + message);
    assert Describe(code, className, message) == IntToString(code) + (" - " + rest);
    CodeRoundTrip(code, rest);
    NameAndMessageRoundTrip(code, className, message);
  }

  /** What follows "<code> - " is the class name, ':' and the message it was split into. */
  lemma NameAndMessageSpelling(code: int, t: string)
    requires ParseNameAndMessage(code, t).Some?
    ensures var d := ParseNameAndMessage(code, t).value; t == d.className + ":" + d.message
  {
    var j := IndexOf(t, ':').value;
    assert t == t[..j] + ":" + t[j + 1..];
  }

  /** Putting a description's printed pieces back together gives the text they were cut from. */
  lemma ReassembledSpelling(s: string, k: nat, code: int, t: string)
    requires k + 3 <= |s| && s[..k] == IntToString(code) && s[k..k + 3] == " - " && t == s[k + 3..]
    requires ParseNameAndMessage(code, t).Some?
    ensures var d := ParseNameAndMessage(code, t).value; s == Describe(d.code, d.className, d.message)
  {
    var d := ParseNameAndMessage(code, t).value;
    var printed := IntToString(code);
    assert s == printed + " - " + t by {
      assert s == s[..k] + s[k..k + 3] + s[k + 3..];
    }
    assert t == d.className + ":" + d.message by {
      NameAndMessageSpelling(code, t);
    }
    assert printed + " - " + (d.className + ":" + d.message) == printed + " - " + d.className + ":" + d.message;
  }

  /** The reader accepts only the exact toString() spelling of what it returns. */
  lemma DescriptionHasOneSpelling(s: string)
    requires ParseDescription(s).Some?
    ensures var d := ParseDescription(s).value; s == Describe(d.code, d.className, d.message)
  {
    var k := IndexOf(s, ' ').value;
    var code := ParseInt(s[..k]).value;
    ParseIntOnlyOfIntToString(s[..k]);
    ReassembledSpelling(s, k, code, s[k + 3..]);
  }

  /** Each description has exactly one spelling that reads back as it. */
  lemma DescriptionSpelledOnce(d: Description)
    ensures forall s :: ParseDescription(s) == Some(d) ==> s == Describe(d.code, d.className, d.message)
  {
    forall s | ParseDescription(s) == Some(d) ensures s == Describe(d.code, d.className, d.message) {
      DescriptionHasOneSpelling(s);
    }
  }

  /** A zero-padded code is not the way toString() prints it, so the reader refuses it. */
  lemma PaddedCodeRefused()
    ensures ParseDescription("0500 - A:b") == None
  {
    assert IndexOf("0500 - A:b", ' ') == Some(4);
    assert "0500 - A:b"[..4] == "0500";
  }

  class Exception {
    /** `this.constructor.name`: the name of the concrete exception class. */
    const className: string
    var code: int
    var name: string
    var message: JsVal
    var body: JsVal
    var isException: bool

    /** `new <className>(code, ...args)` */
    constructor (className: string, code: int, args: seq<JsVal>)
      ensures this.className == className && name == className
      ensures this.code == code
      ensures message == DefaultMessage(args)
      ensures body == DefaultBody(args)
      ensures isException
    {
      this.className := className;
      this.code := 500;
      this.code := code;
      name := className;
      message := Or(At(args, 0), Str(UnknownError));
      body := Or(At(args, 1), At(args, 0));
      isException := true;
    }

    /** `${this.message}` */
    function GetMessage(): (r: string)
      reads this
      ensures message.Str? ==> r == message.s
    {
      ToStr(message)
    }

    /** `${this.code} - ${this.constructor.name}:${this.message}` */
    function ToString(): (r: string)
      reads this
      ensures ':' !in className ==> ParseDescription(r) == Some(Description(code, className, GetMessage()))
      ensures forall s :: ParseDescription(s) == Some(Description(code, className, GetMessage())) ==> s == r
    {
      var r := Describe(code, className, ToStr(message));
      DescriptionSpelledOnce(Description(code, className, ToStr(message)));
      if ':' in className then r else DescribeRoundTrip(code, className, ToStr(message)); r
    }
  }
}
