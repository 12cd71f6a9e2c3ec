/** Splitting a command line the way repeated `strtok(…, " ")` calls do:
    the only separator is the space character, runs of spaces collapse,
    leading and trailing spaces produce no token, and tabs are ordinary
    characters. */
module Tokenizer {

  /** A token as `strtok` returns it: non-empty and free of spaces. */
  predicate IsToken(t: string) {
    |t| > 0 && forall i :: 0 <= i < |t| ==> t[i] != ' '
  }

  predicate AllSpaces(s: string) {
    forall i :: 0 <= i < |s| ==> s[i] == ' '
  }

  /** Length of the run of non-space characters at the start of `s`. */
  function WordLength(s: string): (n: nat)
    ensures n <= |s|
    ensures forall i :: 0 <= i < n ==> s[i] != ' '
    ensures n < |s| ==> s[n] == ' '
  {
    if |s| == 0 || s[0] == ' ' then 0 else 1 + WordLength(s[1..])
  }

  /** The tokens that successive `strtok` calls on `s` return, in order. */
  function Tokens(s: string): seq<string>
    decreases |s|
  {
    if |s| == 0 then []
    else if s[0] == ' ' then Tokens(s[1..])
    else
      var n := WordLength(s);
      [s[..n]] + Tokens(s[n..])
  }

  /** Tokens separated by single spaces. */
  function JoinSpaces(ts: seq<string>): string {
    if |ts| == 0 then []
    else if |ts| == 1 then ts[0]
    else ts[0] + " " + JoinSpaces(ts[1..])
  }

  /** Every token is non-empty and contains no space. */
  lemma {:induction false} TokensAreTokens(s: string)
    ensures forall k :: 0 <= k < |Tokens(s)| ==> IsToken(Tokens(s)[k])
    decreases |s|
  {
    if |s| == 0 {
    } else if s[0] == ' ' {
      TokensAreTokens(s[1..]);
    } else {
      var n := WordLength(s);
      TokensAreTokens(s[n..]);
      assert Tokens(s) == [s[..n]] + Tokens(s[n..]);
    }
  }

  /** A line yields no token at all exactly when it consists of spaces only. */
  lemma {:induction false} NoTokensIffAllSpaces(s: string)
    ensures Tokens(s) == [] <==> AllSpaces(s)
    decreases |s|
  {
    if |s| > 0 && s[0] == ' ' {
      NoTokensIffAllSpaces(s[1..]);
      assert AllSpaces(s) <==> AllSpaces(s[1..]) by {
        if AllSpaces(s[1..]) {
          forall i | 0 <= i < |s| ensures s[i] == ' ' {
            if i > 0 { assert s[i] == s[1..][i - 1]; }
          }
        }
      }
    }
  }

  /** A non-space first character starts the first token. */
  lemma FirstToken(s: string)
    requires |s| > 0 && s[0] != ' '
    ensures |Tokens(s)| > 0 && Tokens(s)[0] == s[..WordLength(s)]
  {
  }

  /** Spaces before a line change nothing. */
  lemma {:induction false} LeadingSpacesIgnored(pad: string, s: string)
    requires AllSpaces(pad)
    ensures Tokens(pad + s) == Tokens(s)
    decreases |pad|
  {
    if |pad| > 0 {
      assert (pad + s)[0] == pad[0] == ' ';
      assert (pad + s)[1..] == pad[1..] + s;
      LeadingSpacesIgnored(pad[1..], s);
    } else {
      assert pad + s == s;
    }
  }

  lemma {:induction false} WordLengthOfToken(t: string, rest: string)
    requires IsToken(t)
    requires |rest| == 0 || rest[0] == ' '
    ensures WordLength(t + rest) == |t|
    decreases |t|
  {
    if |t| > 1 {
      assert (t + rest)[1..] == t[1..] + rest;
      WordLengthOfToken(t[1..], rest);
    } else {
      assert (t + rest)[1..] == rest;
    }
  }

  /** A word ends where the first space after it begins. */
  lemma {:induction false} WordLengthBeforeSpace(a: string, rest: string)
    requires |rest| > 0 && rest[0] == ' '
    ensures WordLength(a + rest) == WordLength(a)
    decreases |a|
  {
    if |a| == 0 {
      assert a + rest == rest;
    } else if a[0] != ' ' {
      assert (a + rest)[1..] == a[1..] + rest;
      WordLengthBeforeSpace(a[1..], rest);
    }
  }

  /** A space separates: the tokens of `a + " " + b` are those of `a`
      followed by those of `b`, whatever spaces `a` ends with or `b`
      starts with; with `LeadingSpacesIgnored` this makes any run of
      spaces between two words, or after the last one, act as one. */
  lemma {:induction false} SpaceSeparates(a: string, b: string)
    ensures Tokens(a + " " + b) == Tokens(a) + Tokens(b)
    decreases |a|
  {
    var s := a + " " + b;
    if |a| == 0 {
      assert s[1..] == b;
    } else if a[0] == ' ' {
      assert s[1..] == a[1..] + " " + b;
      SpaceSeparates(a[1..], b);
    } else {
      var n := WordLength(a);
      assert s == a + (" " + b);
      WordLengthBeforeSpace(a, " " + b);
      assert s[..n] == a[..n];
      assert s[n..] == a[n..] + " " + b;
      SpaceSeparates(a[n..], b);
    }
  }

  /** Trailing spaces produce no token. */
  lemma TrailingSpacesIgnored(a: string, pad: string)
    requires AllSpaces(pad)
    ensures Tokens(a + pad) == Tokens(a)
  {
    if |pad| > 0 {
      assert a + pad == a + " " + pad[1..];
      SpaceSeparates(a, pad[1..]);
      NoTokensIffAllSpaces(pad[1..]);
    } else {
      assert a + pad == a;
    }
  }

  /** Round trip: tokenizing well-formed tokens joined by single spaces
      gives back the same tokens. */
  lemma {:induction false} TokensOfJoin(ts: seq<string>)
    requires forall k :: 0 <= k < |ts| ==> IsToken(ts[k])
    ensures Tokens(JoinSpaces(ts)) == ts
    decreases |ts|
  {
    if |ts| == 1 {
      WordLengthOfToken(ts[0], []);
      assert ts[0] + [] == ts[0];
      assert ts[0][|ts[0]|..] == [];
    } else if |ts| > 1 {
      var t, rest := ts[0], JoinSpaces(ts[1..]);
      var s := t + " " + rest;
      assert s == t + (" " + rest);
      WordLengthOfToken(t, " " + rest);
      assert s[..|t|] == t;
      assert s[|t|..] == " " + rest;
      assert (" " + rest)[1..] == rest;
      TokensOfJoin(ts[1..]);
      assert Tokens(s) == [t] + ts[1..];
    }
  }
}
