/** Small value types shared by the gateway models. */
module Common {

  datatype Option<+T> = None | Some(value: T) {
    function GetOr(default: T): T {
      if Some? then value else default
    }
  }

  /** Why a store or service call raised instead of returning. */
  datatype Error = NotFound | WrongState | Invalid | Conflict | Remote

  datatype Result<+T> = Success(value: T) | Failure(error: Error)

  /** Python's `x or None` for an optional text: the empty text counts as missing. */
  function OrNone(text: Option<string>): Option<string> {
    if text == Some("") then None else text
  }

  function FoldChar(c: char): char {
    if 'A' <= c <= 'Z' then 'a' + (c - 'A') else c
  }

  /** str.casefold on the characters an address may use. */
  function CaseFold(text: string): string {
    seq(|text|, i requires 0 <= i < |text| => FoldChar(text[i]))
  }

  predicate IsCapitalOf(capital: char, letter: char) {
    'A' <= capital <= 'Z' && letter as int == capital as int + 32
  }

  /** Folding ignores the case of letters and nothing else. */
  lemma CaseFoldIgnoresCase(a: string, b: string)
    ensures CaseFold(a) == CaseFold(b) <==>
              |a| == |b| && forall i :: 0 <= i < |a| ==> a[i] == b[i] || IsCapitalOf(a[i], b[i]) || IsCapitalOf(b[i], a[i])
  {
    if |a| == |b| {
      forall i | 0 <= i < |a|
        ensures CaseFold(a)[i] == CaseFold(b)[i] <==> a[i] == b[i] || IsCapitalOf(a[i], b[i]) || IsCapitalOf(b[i], a[i])
      {
      }
    }
    if CaseFold(a) == CaseFold(b) {
      assert |CaseFold(a)| == |CaseFold(b)|;
      assert forall i :: 0 <= i < |a| ==> CaseFold(a)[i] == CaseFold(b)[i];
    }
  }

  /** Number of elements of `xs` that satisfy `p`. */
  function Count<T>(xs: seq<T>, p: T -> bool): nat {
    if xs == [] then 0 else (if p(xs[|xs| - 1]) then 1 else 0) + Count(xs[..|xs| - 1], p)
  }

  lemma CountAppend<T>(xs: seq<T>, x: T, p: T -> bool)
    ensures Count(xs + [x], p) == Count(xs, p) + (if p(x) then 1 else 0)
  {
  }
}
