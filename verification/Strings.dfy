/** Trimming of strings, for whatever the platform counts as white space. */
module Strings {

  function TrimLeft(space: char -> bool, s: string): string {
    if s != "" && space(s[0]) then TrimLeft(space, s[1..]) else s
  }

  function TrimRight(space: char -> bool, s: string): string {
    if s != "" && space(s[|s| - 1]) then TrimRight(space, s[..|s| - 1]) else s
  }

  function Trim(space: char -> bool, s: string): string {
    TrimRight(space, TrimLeft(space, s))
  }

  predicate Tight(space: char -> bool, s: string) {
    s == "" || (!space(s[0]) && !space(s[|s| - 1]))
  }

  lemma {:induction false} TrimLeftFacts(space: char -> bool, s: string) returns (i: nat)
    ensures i <= |s| && TrimLeft(space, s) == s[i..] && (i == |s| || !space(s[i]))
    ensures forall k | 0 <= k < i :: space(s[k])
  {
    if s != "" && space(s[0]) {
      var rest := s[1..];
      var n := TrimLeftFacts(space, rest);
      i := n + 1;
      forall k | 0 <= k < i ensures space(s[k]) {
        assert k > 0 ==> s[k] == rest[k - 1];
      }
    } else {
      i := 0;
    }
  }

  lemma {:induction false} TrimRightFacts(space: char -> bool, s: string)
    ensures var t := TrimRight(space, s); (t == "" || !space(t[|t| - 1])) && t <= s && forall k | |t| <= k < |s| :: space(s[k])
  {
    if s != "" && space(s[|s| - 1]) {
      TrimRightFacts(space, s[..|s| - 1]);
    }
  }

  /** Trimming yields a stretch of the string with no white space at its ends, and cuts off nothing but white space. */
  lemma TrimIsStretch(space: char -> bool, s: string) returns (i: nat, j: nat)
    ensures i <= j <= |s| && Trim(space, s) == s[i..j]
    ensures Tight(space, Trim(space, s))
    ensures forall k | 0 <= k < i || j <= k < |s| :: space(s[k])
  {
    i := TrimLeftFacts(space, s);
    var left, t := s[i..], Trim(space, s);
    TrimRightFacts(space, left);
    j := i + |t|;
    assert t == left[..|t|];
    forall k | j <= k < |s| ensures space(s[k]) {
      assert s[k] == left[k - i];
    }
  }

  /** It leaves alone exactly the strings that have none there. */
  lemma TrimFixesTight(space: char -> bool, s: string)
    ensures Trim(space, s) == s <==> Tight(space, s)
  {
    var _, _ := TrimIsStretch(space, s);
  }

  // ----- What is left without white space -----

  /** The characters that are not white space, in order. */
  function Solid(space: char -> bool, s: string): string {
    if s == "" then "" else (if space(s[0]) then "" else [s[0]]) + Solid(space, s[1..])
  }

  lemma {:induction false} SolidAppend(space: char -> bool, a: string, b: string)
    ensures Solid(space, a + b) == Solid(space, a) + Solid(space, b)
  {
    if a == "" {
      assert a + b == b;
    } else {
      assert (a + b)[1..] == a[1..] + b;
      SolidAppend(space, a[1..], b);
    }
  }

  lemma {:induction false} SolidBlank(space: char -> bool, s: string)
    requires forall k | 0 <= k < |s| :: space(s[k])
    ensures Solid(space, s) == ""
  {
    if s != "" {
      SolidBlank(space, s[1..]);
    }
  }

  /** Trimming loses nothing solid. */
  lemma {:induction false} SolidTrim(space: char -> bool, s: string)
    ensures Solid(space, Trim(space, s)) == Solid(space, s)
  {
    var i, j := TrimIsStretch(space, s);
    SolidBlank(space, s[..i]);
    SolidBlank(space, s[j..]);
    SolidAppend(space, s[..i], s[i..j]);
    SolidAppend(space, s[..i] + s[i..j], s[j..]);
    assert s[..i] + s[i..j] + s[j..] == s;
  }
}
