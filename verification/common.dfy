/** Helpers shared by every route: optional values, submitted form data as the
    routes read it, ASCII case mapping and the redirect sanitiser. */
module Common {

  datatype Option<+T> = None | Some(value: T)

  /** A submitted form: field name to the string value sent for it. A field
      that was not sent, or that carried a file, is absent from the map. */
  type FormData = map<string, string>

  /** `formData.get(key)` read directly: absent when the field was not sent. */
  function RawField(form: FormData, key: string): (r: Option<string>)
    ensures r.Some? <==> key in form
    ensures r.Some? ==> r.value == form[key]
  {
    if key in form then Some(form[key]) else None
  }

  /** A field as the form library hands it to a schema: the library reads an
      empty value as a missing one, so a present field is never empty. */
  function ConformField(form: FormData, key: string): (r: Option<string>)
    ensures r.Some? <==> key in form && form[key] != ""
    ensures r.Some? ==> r.value == form[key] && r.value != ""
  {
    if key in form && form[key] != "" then Some(form[key]) else None
  }

  /** A validation issue attached to a form field. */
  datatype Issue =
    | Required(path: string)
    | TooSmall(path: string, minimum: nat)
    | TooBig(path: string, maximum: nat)
    | Custom(path: string, message: string)

  /** The UTF-16 code units of one character: itself below U+10000, a
      high and a low surrogate above. */
  function CharUnits(c: char): (r: seq<int>)
    ensures c as int < 0x1_0000 ==> r == [c as int]
    ensures c as int >= 0x1_0000 ==> |r| == 2 && 0xD800 <= r[0] < 0xDC00 && 0xDC00 <= r[1] < 0xE000
  {
    if c as int < 0x1_0000 then [c as int]
    else
      var v := c as int - 0x1_0000;
      [0xD800 + v / 0x400, 0xDC00 + v % 0x400]
  }

  /** A string as JavaScript stores it: a sequence of UTF-16 code units. */
  function CodeUnits(s: string): (r: seq<int>)
    ensures |s| <= |r| <= 2 * |s|
    ensures forall k :: 0 <= k < |r| ==> 0 <= r[k] < 0x1_0000
    ensures |r| == |s| <==> forall i :: 0 <= i < |s| ==> s[i] as int < 0x1_0000
  {
    if s == [] then []
    else
      var r := CharUnits(s[0]) + CodeUnits(s[1..]);
      assert forall i :: 1 <= i < |s| ==> s[i] == s[1..][i - 1];
      r
  }

  /** `value.length` in JavaScript: the number of UTF-16 code units, so a
      character above U+FFFF counts twice. */
  function Utf16Length(s: string): nat {
    |CodeUnits(s)|
  }

  /** A string of characters below U+10000 is its own code units. */
  lemma {:induction false} CodeUnitsOfBmp(s: string)
    requires forall i :: 0 <= i < |s| ==> s[i] as int < 0x1_0000
    ensures Utf16Length(s) == |s|
    ensures forall i :: 0 <= i < |s| ==> CodeUnits(s)[i] == s[i] as int
  {
    if s != [] {
      CodeUnitsOfBmp(s[1..]);
    }
  }

  /** A string of characters above U+FFFF is twice as long in code units. */
  lemma {:induction false} AstralCountsTwice(s: string)
    requires forall i :: 0 <= i < |s| ==> s[i] as int >= 0x1_0000
    ensures Utf16Length(s) == 2 * |s|
  {
    if s != [] {
      AstralCountsTwice(s[1..]);
    }
  }

  /** The issues of a length-checked string field whose value is present;
      the length is counted in UTF-16 code units, as JavaScript does. */
  function LengthIssues(path: string, value: string, min: nat, max: nat): (r: seq<Issue>)
    ensures r == [] <==> min <= Utf16Length(value) <= max
    ensures forall i :: 0 <= i < |r| ==> r[i].path == path && !r[i].Custom?
  {
    (if Utf16Length(value) < min then [TooSmall(path, min)] else [])
    + (if Utf16Length(value) > max then [TooBig(path, max)] else [])
  }

  /** The issues a required, length-checked string field raises: `Required`
      when the field is missing, its length issues otherwise. */
  function StringFieldIssues(form: FormData, path: string, min: nat, max: nat): (r: seq<Issue>)
    ensures r == [] <==> path in form && form[path] != "" && min <= Utf16Length(form[path]) <= max
    ensures forall i :: 0 <= i < |r| ==> r[i].path == path && !r[i].Custom?
  {
    match ConformField(form, path)
    case None => [Required(path)]
    case Some(value) => LengthIssues(path, value, min, max)
  }

  predicate IsAsciiLower(c: char) { 'a' <= c <= 'z' }
  predicate IsAsciiUpper(c: char) { 'A' <= c <= 'Z' }

  function UpperChar(c: char): (r: char)
    ensures !IsAsciiLower(r)
    ensures IsAsciiLower(c) <==> r != c
  {
    if IsAsciiLower(c) then (c as int - 32) as char else c
  }

  function LowerChar(c: char): (r: char)
    ensures !IsAsciiUpper(r)
    ensures IsAsciiUpper(c) <==> r != c
  {
    if IsAsciiUpper(c) then (c as int + 32) as char else c
  }

  /** `toUpperCase` restricted to ASCII letters. */
  function ToUpper(s: string): (r: string)
    ensures |r| == |s|
    ensures forall i :: 0 <= i < |s| ==> r[i] == UpperChar(s[i])
  {
    seq(|s|, i requires 0 <= i < |s| => UpperChar(s[i]))
  }

  lemma ToUpperIdempotent(s: string)
    ensures ToUpper(ToUpper(s)) == ToUpper(s)
  {
    assert forall i :: 0 <= i < |s| ==> UpperChar(UpperChar(s[i])) == UpperChar(s[i]);
  }

  predicate StartsWith(s: string, prefix: string) {
    |prefix| <= |s| && s[..|prefix|] == prefix
  }

  /** `safeRedirect(to)` with the default target "/": only a local path that
      does not start with "//" is kept. */
  function SafeRedirect(to: Option<string>): (r: string)
    ensures StartsWith(r, "/")
    ensures !StartsWith(r, "//")
    ensures r == "/" || (to.Some? && r == to.value)
  {
    match to
    case None => "/"
    case Some(t) =>
      if t == "" || !StartsWith(t, "/") || StartsWith(t, "//") then "/" else t
  }
}
