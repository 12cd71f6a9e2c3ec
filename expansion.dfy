/** `$$` expansion: every non-overlapping occurrence of the two-character
    marker "$$" in an argument is replaced by the shell's process id. */
module Expansion {
  import opened Wrappers
  import opened Format

  /** A marker starts at index `i` of `s`. */
  predicate MarkerAt(s: string, i: int) {
    0 <= i && i + 1 < |s| && s[i] == '$' && s[i + 1] == '$'
  }

  predicate HasNoMarker(s: string) {
    forall i :: 0 <= i < |s| ==> !MarkerAt(s, i)
  }

  predicate NoDollar(s: string) {
    forall i :: 0 <= i < |s| ==> s[i] != '$'
  }

  /** `strstr(s, "$$")`: the index of the leftmost marker, if any. */
  function FindMarker(s: string): (r: Option<nat>)
    ensures r.Some? ==> MarkerAt(s, r.value) && forall j :: 0 <= j < r.value ==> !MarkerAt(s, j)
    ensures r.None? ==> HasNoMarker(s)
  {
    if |s| < 2 then None
    else if s[0] == '$' && s[1] == '$' then Some(0)
    else match FindMarker(s[1..])
      case None =>
        assert forall j :: 1 <= j < |s| ==> (MarkerAt(s, j) <==> MarkerAt(s[1..], j - 1));
        None
      case Some(k) =>
        assert forall j :: 1 <= j < |s| ==> (MarkerAt(s, j) <==> MarkerAt(s[1..], j - 1));
        Some(k + 1)
  }

  /** Reference meaning of the expansion: one left-to-right scan that
      replaces each "$$" it meets by `pid` and resumes after the marker. */
  function Expand(s: string, pid: string): string
    decreases |s|
  {
    if |s| < 2 then s
    else if s[0] == '$' && s[1] == '$' then pid + Expand(s[2..], pid)
    else [s[0]] + Expand(s[1..], pid)
  }

  /** The expansion of every argument, the count unchanged. */
  function ExpandAll(args: seq<string>, pid: string): (r: seq<string>)
    ensures |r| == |args|
    ensures forall i :: 0 <= i < |args| ==> r[i] == Expand(args[i], pid)
  {
    if |args| == 0 then [] else [Expand(args[0], pid)] + ExpandAll(args[1..], pid)
  }

  /** Number of '$' characters: each rewrite step removes two of them. */
  function DollarCount(s: string): nat {
    if |s| == 0 then 0 else (if s[0] == '$' then 1 else 0) + DollarCount(s[1..])
  }

  lemma {:induction false} DollarCountConcat(a: string, b: string)
    ensures DollarCount(a + b) == DollarCount(a) + DollarCount(b)
    decreases |a|
  {
    if |a| == 0 {
      assert a + b == b;
    } else {
      assert (a + b)[1..] == a[1..] + b;
      DollarCountConcat(a[1..], b);
    }
  }

  lemma {:induction false} NoDollarCount(s: string)
    requires NoDollar(s)
    ensures DollarCount(s) == 0
    decreases |s|
  {
    if |s| > 0 {
      NoDollarCount(s[1..]);
    }
  }

  /** Splicing a '$'-free pid over a marker lowers the '$' count by two. */
  lemma SpliceLowersDollarCount(s: string, k: nat, pid: string)
    requires MarkerAt(s, k) && NoDollar(pid)
    ensures DollarCount(s[..k] + pid + s[k + 2..]) == DollarCount(s) - 2
  {
    assert s == s[..k] + (s[k..k + 2] + s[k + 2..]);
    DollarCountConcat(s[..k], s[k..k + 2] + s[k + 2..]);
    DollarCountConcat(s[k..k + 2], s[k + 2..]);
    assert s[k..k + 2] == "$$";
    DollarCountConcat(s[..k] + pid, s[k + 2..]);
    DollarCountConcat(s[..k], pid);
    NoDollarCount(pid);
  }

  /** A prefix in which no marker starts passes through the scan unchanged. */
  lemma {:induction false} ExpandPrefix(x: string, y: string, pid: string)
    requires forall i :: 0 <= i < |x| ==> !MarkerAt(x + y, i)
    ensures Expand(x + y, pid) == x + Expand(y, pid)
    decreases |x|
  {
    if |x| == 0 {
      assert x + y == y;
    } else {
      var s := x + y;
      if |s| >= 2 {
        assert !MarkerAt(s, 0);
        assert s[1..] == x[1..] + y;
        forall i | 0 <= i < |x| - 1 ensures !MarkerAt(x[1..] + y, i) {
          assert !MarkerAt(s, i + 1);
        }
        ExpandPrefix(x[1..], y, pid);
        assert s[0] == x[0];
        assert x == [x[0]] + x[1..];
      } else {
        assert |y| == 0 && s == x;
      }
    }
  }

  /** A string without markers is its own expansion. */
  lemma NoMarkerFixed(s: string, pid: string)
    requires HasNoMarker(s)
    ensures Expand(s, pid) == s
  {
    assert s + [] == s;
    ExpandPrefix(s, [], pid);
  }

  /** The scan of `s` emits the text before the leftmost marker
      unchanged, then the pid in place of the marker. */
  lemma ExpandAtLeftmostMarker(s: string, k: nat, pid: string)
    requires FindMarker(s) == Some(k)
    ensures Expand(s, pid) == s[..k] + (pid + Expand(s[k + 2..], pid))
  {
    assert s == s[..k] + s[k..];
    ExpandPrefix(s[..k], s[k..], pid);
    assert s[k..][2..] == s[k + 2..];
  }

  /** The scan of a spliced string emits the marker-free prefix and the
      '$'-free pid unchanged. */
  lemma ExpandOfSplice(x: string, rest: string, pid: string)
    requires HasNoMarker(x) && (|x| > 0 ==> x[|x| - 1] != '$') && NoDollar(pid)
    ensures Expand(x + pid + rest, pid) == x + (pid + Expand(rest, pid))
  {
    var t := x + (pid + rest);
    forall i | 0 <= i < |x| ensures !MarkerAt(t, i) {
      if i + 1 < |x| {
        assert !MarkerAt(x, i);
      }
    }
    ExpandPrefix(x, pid + rest, pid);
    forall i | 0 <= i < |pid| ensures !MarkerAt(pid + rest, i) {
      assert (pid + rest)[i] == pid[i];
    }
    ExpandPrefix(pid, rest, pid);
    assert x + pid + rest == t;
  }

  /** One step of the C loop — splice the pid over the leftmost marker —
      keeps the final expansion of the argument unchanged. */
  lemma SplicePreservesExpand(s: string, k: nat, pid: string)
    requires FindMarker(s) == Some(k) && NoDollar(pid)
    ensures Expand(s[..k] + pid + s[k + 2..], pid) == Expand(s, pid)
  {
    ExpandAtLeftmostMarker(s, k, pid);
    var x := s[..k];
    forall i | 0 <= i < |x| ensures !MarkerAt(x, i) {
      assert !MarkerAt(s, i);
    }
    if |x| > 0 {
      assert !MarkerAt(s, k - 1);
    }
    ExpandOfSplice(x, s[k + 2..], pid);
  }

  lemma NoMarkerConcat(a: string, b: string)
    requires HasNoMarker(a) && HasNoMarker(b)
    requires !(|a| > 0 && |b| > 0 && a[|a| - 1] == '$' && b[0] == '$')
    ensures HasNoMarker(a + b)
  {
    var s := a + b;
    forall i | 0 <= i < |s| ensures !MarkerAt(s, i) {
      if i + 1 < |a| {
        assert !MarkerAt(a, i);
      } else if i >= |a| {
        assert !MarkerAt(b, i - |a|);
      }
    }
  }

  /** After expansion no "$$" is left, provided the pid has no '$' (a
      decimal pid never does). An expansion only starts with '$' when
      the argument does. */
  lemma {:induction false} ExpandLeavesNoMarker(s: string, pid: string)
    requires NoDollar(pid)
    ensures HasNoMarker(Expand(s, pid))
    ensures |Expand(s, pid)| > 0 && Expand(s, pid)[0] == '$' ==> |s| > 0 && s[0] == '$'
    decreases |s|
  {
    if |s| < 2 {
    } else if s[0] == '$' && s[1] == '$' {
      ExpandLeavesNoMarker(s[2..], pid);
      assert HasNoMarker(pid) by {
        forall i | 0 <= i < |pid| ensures !MarkerAt(pid, i) { }
      }
      NoMarkerConcat(pid, Expand(s[2..], pid));
    } else {
      ExpandLeavesNoMarker(s[1..], pid);
      NoMarkerConcat([s[0]], Expand(s[1..], pid));
    }
  }

  lemma DecimalHasNoDollar(n: nat)
    ensures NoDollar(Decimal(n))
  {
  }

  /** `expansionVariablePIDReplace`: rewrites the first `numArguments`
      entries of the array, re-examining an entry after each replacement
      until it holds no marker, and touches nothing else. */
  method ExpandArguments(numArguments: nat, argumentsArray: array<Option<string>>, pid: nat)
    requires numArguments <= argumentsArray.Length
    requires forall i :: 0 <= i < numArguments ==> argumentsArray[i].Some?
    modifies argumentsArray
    ensures forall i :: 0 <= i < numArguments ==>
      argumentsArray[i] == Some(Expand(old(argumentsArray[i]).value, Decimal(pid)))
    ensures forall i :: numArguments <= i < argumentsArray.Length ==> argumentsArray[i] == old(argumentsArray[i])
  {
    ghost var pidText := Decimal(pid);
    DecimalHasNoDollar(pid);
    var i := 0;
    while i < numArguments
      invariant 0 <= i <= numArguments
      invariant forall j :: 0 <= j < numArguments ==> argumentsArray[j].Some?
      invariant forall j :: 0 <= j < i ==>
        argumentsArray[j] == Some(Expand(old(argumentsArray[j]).value, pidText))
      invariant i < numArguments ==>
        Expand(argumentsArray[i].value, pidText) == Expand(old(argumentsArray[i]).value, pidText)
      invariant forall j :: i < j < argumentsArray.Length ==> argumentsArray[j] == old(argumentsArray[j])
      invariant forall j :: numArguments <= j < argumentsArray.Length ==> argumentsArray[j] == old(argumentsArray[j])
      decreases numArguments - i, if i < numArguments then DollarCount(argumentsArray[i].value) else 0
    {
      var position := FindMarker(argumentsArray[i].value);
      if position.Some? {
        // the pid's decimal text, as getpid() and sprintf("%d") produce it
        var pidString := Decimal(pid);
        var arg := argumentsArray[i].value;
        var pos := position.value;
        argumentsArray[i] := Some(arg[..pos] + pidString + arg[pos + 2..]);
        SplicePreservesExpand(arg, pos, pidString);
        SpliceLowersDollarCount(arg, pos, pidString);
        // the same entry is examined again (the source's `i--`)
      } else {
        NoMarkerFixed(argumentsArray[i].value, pidText);
        i := i + 1;
      }
    }
  }
}
