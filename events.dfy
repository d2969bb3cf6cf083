/**
 * The pull tokenizer as the builder sees it: a finite sequence of events and
 * a cursor into it. The character-level lexer that produces the events is
 * not part of this model.
 */
module Events {

  /** One event reported by the tokenizer. */
  datatype Event =
    | StartDocument
    | StartTag(name: string, attributes: seq<(string, string)>)
    | Text(text: string)
    | EndTag(name: string)
    | EndDocument
      /** The advance that would reach this position failed (malformed input). */
    | Fault

  /** The event under cursor `i`; past the last event the tokenizer stays at the end of the document. */
  function At(ev: seq<Event>, i: nat): Event {
    if i < |ev| then ev[i] else EndDocument
  }

  /** How an event changes the number of open elements. */
  function Delta(e: Event): int {
    match e
    case StartTag(_, _) => 1
    case EndTag(_) => -1
    case _ => 0
  }

  /** Net number of elements opened by the events `ev[a..b]`. */
  function Depth(ev: seq<Event>, a: nat, b: nat): int
    requires a <= b <= |ev|
    decreases b - a
  {
    if a == b then 0 else Depth(ev, a, b - 1) + Delta(ev[b - 1])
  }

  lemma {:induction false} DepthSplit(ev: seq<Event>, a: nat, b: nat, c: nat)
    requires a <= b <= c <= |ev|
    ensures Depth(ev, a, c) == Depth(ev, a, b) + Depth(ev, b, c)
    decreases c - b
  {
    if b < c {
      DepthSplit(ev, a, b, c - 1);
    }
  }

  /**
   * `e` is the end tag matching the start tag at `s`, in the sense of the
   * Element Type Match constraint of section 3.1 of XML 1.0: it carries the
   * same name, and it is the first event after `s` at which the nesting depth
   * returns to zero.
   */
  ghost predicate Matches(ev: seq<Event>, s: nat, e: nat) {
    && s < e < |ev|
    && ev[s].StartTag?
    && ev[e] == EndTag(ev[s].name)
    && Depth(ev, s, e + 1) == 0
    && forall k :: s < k <= e ==> Depth(ev, s, k) > 0
  }
}
