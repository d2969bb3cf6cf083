/**
 * The value-trimming policy applied when an element is closed: with trimming
 * on, blank characters are stripped from both ends and an all-blank text
 * becomes no value at all; with trimming off the text is kept verbatim.
 */
module TrimPolicy {
  import opened Wrappers

  /** The characters stripped by trimming: every character up to and including the space. */
  predicate IsBlank(c: char) {
    c <= ' '
  }

  ghost predicate AllBlank(s: string) {
    forall i :: 0 <= i < |s| ==> IsBlank(s[i])
  }

  /** `r` is `s` with some blank characters removed from its start and its end, and nothing else. */
  ghost predicate StrippedFrom(s: string, r: string) {
    exists a, b :: 0 <= a <= b <= |s| && r == s[a..b] && AllBlank(s[..a]) && AllBlank(s[b..])
  }

  /** Number of blank characters at the start of `s`. */
  function LeadingBlanks(s: string): (n: nat)
    ensures n <= |s|
    ensures AllBlank(s[..n])
    ensures n < |s| ==> !IsBlank(s[n])
  {
    if s == [] || !IsBlank(s[0]) then 0
    else
      var m := LeadingBlanks(s[1..]);
      assert s[..1 + m] == [s[0]] + s[1..][..m];
      1 + m
  }

  /** Number of blank characters at the end of `s`. */
  function TrailingBlanks(s: string): (n: nat)
    ensures n <= |s|
    ensures AllBlank(s[|s| - n..])
    ensures n < |s| ==> !IsBlank(s[|s| - n - 1])
  {
    if s == [] || !IsBlank(s[|s| - 1]) then 0
    else
      var m := TrailingBlanks(s[..|s| - 1]);
      assert s[|s| - (1 + m)..] == s[..|s| - 1][|s| - 1 - m..] + [s[|s| - 1]];
      1 + m
  }

  /** `s` without its leading and trailing blanks. */
  function Trim(s: string): (r: string)
    ensures StrippedFrom(s, r)
    ensures r == [] <==> AllBlank(s)
    ensures r != [] ==> !IsBlank(r[0]) && !IsBlank(r[|r| - 1])
  {
    var a := LeadingBlanks(s);
    if a == |s| then
      assert s[..a] == s && s[a..] == [];
      []
    else
      var t := TrailingBlanks(s);
      assert |s| - t > a;
      assert !AllBlank(s) by { assert !IsBlank(s[a]); }
      s[a..|s| - t]
  }

  /** Trimming again changes nothing. */
  lemma TrimIdempotent(s: string)
    ensures Trim(Trim(s)) == Trim(s)
  {
    var r := Trim(s);
    if r != [] {
      assert LeadingBlanks(r) == 0;
      assert TrailingBlanks(r) == 0;
      assert r[0..|r|] == r;
    }
  }

  /** Character data seen so far, extended by one more text event; absent until the first one. */
  function Accumulate(text: Option<string>, s: string): (r: Option<string>)
    ensures r.Some?
    ensures text.Some? ==> r.value == text.value + s
    ensures text.None? ==> r.value == s
  {
    match text
    case None => Some(s)
    case Some(t) => Some(t + s)
  }

  /** The value an element receives from the character data accumulated inside it. */
  function Resolve(text: Option<string>, trim: bool): (v: Option<string>)
    ensures text.None? ==> v.None?
    ensures !trim ==> v == text
    ensures trim && text.Some? ==> (v.None? <==> AllBlank(text.value))
    ensures trim && v.Some? ==> StrippedFrom(text.value, v.value) && v.value == Trim(v.value)
    ensures trim && v.Some? ==> !IsBlank(v.value[0]) && !IsBlank(v.value[|v.value| - 1])
  {
    match text
    case None => None
    case Some(t) =>
      if !trim then Some(t)
      else
        var u := Trim(t);
        TrimIdempotent(t);
        if u == [] then None else Some(u)
  }
}
