/** Small shared vocabulary: optional values, patches, entity identifiers and
    the JavaScript `String.prototype.trim` the handlers apply to free text. */
module Common {

  /** Opaque entity identifier (a Mongo ObjectId in the source). */
  type Id = nat

  datatype Option<+T> = None | Some(value: T)

  /** A request field of an update: left out of the body (`undefined`), or sent. */
  datatype Patch<+T> = Keep | Set(value: T)

  /** A text field counts as given when it is present and not the empty
      string (JavaScript truthiness of a string). */
  predicate Given(o: Option<string>) {
    o.Some? && o.value != []
  }

  /** The characters `trim` removes: ECMAScript WhiteSpace and LineTerminator. */
  const SpaceChars: set<char> :=
    {'\t', '\n', '\U{000B}', '\U{000C}', '\r', ' ', '\U{00A0}', '\U{1680}',
     '\U{2000}', '\U{2001}', '\U{2002}', '\U{2003}', '\U{2004}', '\U{2005}', '\U{2006}', '\U{2007}',
     '\U{2008}', '\U{2009}', '\U{200A}', '\U{2028}', '\U{2029}', '\U{202F}', '\U{205F}', '\U{3000}',
     '\U{FEFF}'}

  predicate IsSpace(c: char) {
    c in SpaceChars
  }

  /** How many characters of white space `s` starts with. */
  function LeadingSpace(s: string): (n: nat)
    ensures n <= |s|
    ensures forall i :: 0 <= i < n ==> IsSpace(s[i])
    ensures n < |s| ==> !IsSpace(s[n])
  {
    if s == [] || !IsSpace(s[0]) then 0
    else
      var n := 1 + LeadingSpace(s[1..]);
      assert forall i :: 1 <= i < |s| ==> s[i] == s[1..][i - 1];
      n
  }

  /** How many characters of white space `s` ends with. */
  function TrailingSpace(s: string): (n: nat)
    ensures n <= |s|
    ensures forall i :: |s| - n <= i < |s| ==> IsSpace(s[i])
    ensures n < |s| ==> !IsSpace(s[|s| - n - 1])
  {
    if s == [] || !IsSpace(s[|s| - 1]) then 0
    else
      var n := 1 + TrailingSpace(s[..|s| - 1]);
      assert forall i :: 0 <= i < |s| - 1 ==> s[i] == s[..|s| - 1][i];
      n
  }

  /** `s.trim()`: what is left of `s` after dropping the white space at both
      ends. It is empty exactly when `s` is all white space; otherwise it is
      the infix between the leading and the trailing white space, and
      neither starts nor ends with white space. */
  function Trim(s: string): (r: string)
    ensures r == [] <==> forall i :: 0 <= i < |s| ==> IsSpace(s[i])
    ensures r != [] ==>
      && LeadingSpace(s) + |r| + TrailingSpace(s) == |s|
      && r == s[LeadingSpace(s)..|s| - TrailingSpace(s)]
      && !IsSpace(r[0]) && !IsSpace(r[|r| - 1])
  {
    var a := LeadingSpace(s);
    if a == |s| then []
    else
      var b := TrailingSpace(s);
      assert a < |s| - b by {
        assert !IsSpace(s[a]);
      }
      s[a..|s| - b]
  }

  /** Trimming twice is trimming once. */
  lemma TrimIdempotent(s: string)
    ensures Trim(Trim(s)) == Trim(s)
  {
    var r := Trim(s);
    if r != [] {
      assert LeadingSpace(r) == 0;
      assert TrailingSpace(r) == 0;
      assert r[0..|r|] == r;
    }
  }

  /** `text?.trim() || undefined`: absent text and text that trims to the
      empty string are both stored as absent. */
  function TrimmedOrAbsent(o: Option<string>): (r: Option<string>)
    ensures r.Some? <==> o.Some? && exists i :: 0 <= i < |o.value| && !IsSpace(o.value[i])
    ensures r.Some? ==> r.value == Trim(o.value) && r.value != []
  {
    match o
    case None => None
    case Some(s) => if Trim(s) == [] then None else Some(Trim(s))
  }
}
