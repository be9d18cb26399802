/** Bounded histories: append-then-trim sequences that keep the most recent entries. */
module History {

  function Min(a: int, b: int): int {
    if a <= b then a else b
  }

  /** The most recent `cap` entries of `s`, in order: for a positive `cap`, the effect of
      `if len(s) > cap: s = s[-cap:]` (Python's `s[-0:]` would keep everything). */
  function KeepLast<T>(s: seq<T>, cap: nat): (r: seq<T>)
    ensures |r| == Min(|s|, cap)
    ensures r == s[|s| - |r|..]
  {
    if |s| > cap then s[|s| - cap..] else s
  }

  /** Trimming a suffix that is still at least as long as the bound gives the same result. */
  lemma KeepLastOfSuffix<T>(u: seq<T>, j: nat, cap: nat)
    requires j <= |u|
    requires |u| - j >= Min(|u|, cap)
    ensures KeepLast(u[j..], cap) == KeepLast(u, cap)
  {
    if |u| > cap {
      assert u[j..][|u| - j - cap..] == u[|u| - cap..];
    } else {
      assert j == 0;
      assert u[0..] == u;
    }
  }

  /** Trimming before an append and again after it is the same as trimming only after it. */
  lemma KeepLastAbsorbs<T>(s: seq<T>, xs: seq<T>, cap: nat)
    ensures KeepLast(KeepLast(s, cap) + xs, cap) == KeepLast(s + xs, cap)
  {
    var t := KeepLast(s, cap);
    var j := |s| - |t|;
    assert t + xs == (s + xs)[j..];
    KeepLastOfSuffix(s + xs, j, cap);
  }

  /** All batches, concatenated in order. */
  function Flatten<T>(batches: seq<seq<T>>): (r: seq<T>)
  {
    if |batches| == 0 then [] else batches[0] + Flatten(batches[1..])
  }

  /** A history after a run of steps, each of which appends one batch and then trims to `cap`. */
  function Recorded<T>(h: seq<T>, batches: seq<seq<T>>, cap: nat): seq<T>
    decreases |batches|
  {
    if |batches| == 0 then h else Recorded(KeepLast(h + batches[0], cap), batches[1..], cap)
  }

  /** A bounded history equals the trimmed concatenation of everything ever appended to it. */
  lemma {:induction false} RecordKeepsMostRecent<T>(h: seq<T>, batches: seq<seq<T>>, cap: nat)
    requires |h| <= cap
    ensures Recorded(h, batches, cap) == KeepLast(h + Flatten(batches), cap)
    decreases |batches|
  {
    if |batches| == 0 {
      assert h + Flatten(batches) == h;
    } else {
      var h' := KeepLast(h + batches[0], cap);
      RecordKeepsMostRecent(h', batches[1..], cap);
      KeepLastAbsorbs(h + batches[0], Flatten(batches[1..]), cap);
      FlattenStep(h, batches);
    }
  }

  /** Appending the first batch and then the rest is appending all of them. */
  lemma FlattenStep<T>(h: seq<T>, batches: seq<seq<T>>)
    requires |batches| > 0
    ensures (h + batches[0]) + Flatten(batches[1..]) == h + Flatten(batches)
  {
    var rest := Flatten(batches[1..]);
    assert Flatten(batches) == batches[0] + rest;
    AppendAssoc(h, batches[0], rest);
  }

  lemma AppendAssoc<T>(a: seq<T>, b: seq<T>, c: seq<T>)
    ensures (a + b) + c == a + (b + c)
  {
  }

  /** Once at least `cap` values have gone through a bounded history, it holds exactly the most
      recent `cap` of them, oldest first. */
  lemma RecordIsFullWindow<T>(h: seq<T>, batches: seq<seq<T>>, cap: nat)
    requires |h| <= cap
    requires |h + Flatten(batches)| >= cap
    ensures |Recorded(h, batches, cap)| == cap
    ensures Recorded(h, batches, cap) == (h + Flatten(batches))[|h + Flatten(batches)| - cap..]
  {
    RecordKeepsMostRecent(h, batches, cap);
  }
}
