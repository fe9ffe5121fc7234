/** Line-oriented journal files: record boundaries, torn-tail repair and one
    pass over the nonempty lines. Shared by both grant journals. */
module LineFile {
  import opened Text

  /** The file ends on a record boundary. */
  predicate Boundary(s: string) { s == "" || s[|s| - 1] == '\n' }

  /** Length of the part that ends with the last newline. */
  function KeepLength(s: string): (n: nat)
    ensures n <= |s| && Boundary(s[..n])
    ensures forall i | n <= i < |s| :: s[i] != '\n'
  {
    if Boundary(s) then |s| else KeepLength(s[..|s| - 1])
  }

  /** Startup repair: cut an unterminated final line. */
  function Repair(s: string): (r: string)
    ensures Boundary(r) && r <= s
  {
    s[..KeepLength(s)]
  }

  /** The line in progress contributes only when it is nonempty. */
  function FirstLine(s: string): seq<string> { if s == "" then [] else [s] }

  /** The nonempty lines of `s`, when `current` was read before it. */
  function LinesFrom(current: string, s: string): seq<string>
    decreases |s|
  {
    if s == "" then FirstLine(current)
    else if s[0] == '\n' then FirstLine(current) + LinesFrom("", s[1..])
    else LinesFrom(current + [s[0]], s[1..])
  }

  /** The nonempty lines of the file, in order. */
  function Lines(s: string): seq<string> { LinesFrom("", s) }

  lemma {:induction false} LinesFromAppend(current: string, a: string, b: string)
    requires a != "" && a[|a| - 1] == '\n'
    ensures LinesFrom(current, a + b) == LinesFrom(current, a) + LinesFrom("", b)
    decreases |a|
  {
    assert (a + b)[1..] == a[1..] + b;
    if |a| == 1 {
      assert a[1..] == "" && a[1..] + b == b;
    } else {
      LinesFromAppend(if a[0] == '\n' then "" else current + [a[0]], a[1..], b);
    }
  }

  lemma LinesAppend(a: string, b: string)
    requires Boundary(a)
    ensures Lines(a + b) == Lines(a) + Lines(b)
  {
    if a == "" {
      assert a + b == b;
    } else {
      LinesFromAppend("", a, b);
    }
  }

  lemma {:induction false} LinesFromFree(current: string, a: string, b: string)
    requires Free(a, '\n')
    ensures LinesFrom(current, a + b) == LinesFrom(current + a, b)
    decreases |a|
  {
    if a == "" {
      assert a + b == b && current + a == current;
    } else {
      assert (a + b)[1..] == a[1..] + b;
      LinesFromFree(current + [a[0]], a[1..], b);
      assert current + [a[0]] + a[1..] == current + a;
    }
  }

  lemma LinesOfOne(body: string)
    requires body != "" && Free(body, '\n')
    ensures Lines(body + "\n") == [body]
  {
    LinesFromFree("", body, "\n");
    assert "" + body == body;
    assert "\n"[1..] == "";
  }

  lemma LinesOfTorn(torn: string)
    requires Free(torn, '\n')
    ensures Lines(torn) == FirstLine(torn)
  {
    LinesFromFree("", torn, "");
    assert torn + "" == torn && "" + torn == torn;
  }

  // ---- One pass over the lines -------------------------------------------

  /** Fold a partial step over the lines; the first refusal wins. */
  function Fold<S>(step: (S, nat, string) -> Option<S>, s: S, index: nat, lines: seq<string>): Option<S>
    decreases |lines|
  {
    if lines == [] then Some(s) else
    match step(s, index, lines[0])
    case None => None
    case Some(next) => Fold(step, next, index + 1, lines[1..])
  }

  lemma {:induction false} FoldAppend<S>(
    step: (S, nat, string) -> Option<S>, s: S, index: nat, a: seq<string>, b: seq<string>)
    ensures Fold(step, s, index, a + b)
      == match Fold(step, s, index, a) case None => None case Some(m) => Fold(step, m, index + |a|, b)
    decreases |a|
  {
    if a == [] {
      assert a + b == b;
    } else {
      assert (a + b)[1..] == a[1..] + b;
      match step(s, index, a[0]) {
        case None =>
        case Some(next) => FoldAppend(step, next, index + 1, a[1..], b);
      }
    }
  }

  lemma FoldOne<S>(step: (S, nat, string) -> Option<S>, s: S, index: nat, a: seq<string>, x: string)
    ensures Fold(step, s, index, a + [x])
      == match Fold(step, s, index, a) case None => None case Some(m) => step(m, index + |a|, x)
  {
    FoldAppend(step, s, index, a, [x]);
    assert [x][1..] == [];
  }

  /** What every accepted step keeps holds after the whole pass. */
  lemma {:induction false} FoldKeeps<S(!new)>(
    step: (S, nat, string) -> Option<S>, inv: (S, nat) -> bool, s: S, index: nat, lines: seq<string>)
    requires inv(s, index) && Fold(step, s, index, lines).Some?
    requires forall t, i: nat, line :: inv(t, i) && step(t, i, line).Some? ==> inv(step(t, i, line).value, i + 1)
    ensures inv(Fold(step, s, index, lines).value, index + |lines|)
    decreases |lines|
  {
    if lines != [] {
      FoldKeeps(step, inv, step(s, index, lines[0]).value, index + 1, lines[1..]);
    }
  }

  /** One line that no state accepts refuses the whole file. */
  lemma {:induction false} FoldRefuses<S(!new)>(
    step: (S, nat, string) -> Option<S>, s: S, index: nat, lines: seq<string>, k: nat)
    requires k < |lines| && forall t, i: nat :: step(t, i, lines[k]).None?
    ensures Fold(step, s, index, lines).None?
    decreases |lines|
  {
    if k > 0 {
      var next := step(s, index, lines[0]);
      if next.Some? {
        FoldRefuses(step, next.value, index + 1, lines[1..], k - 1);
      }
    }
  }

  /** Scan a file once, handing each nonempty line to `step`. */
  method ScanLines<S>(step: (S, nat, string) -> Option<S>, start: S, file: string) returns (r: Option<S>)
    requires Boundary(file)
    ensures r == Fold(step, start, 0, Lines(file))
  {
    var s, index, current, i := start, 0, "", 0;
    while i < |file|
      invariant 0 <= i <= |file|
      invariant Fold(step, start, 0, Lines(file)) == Fold(step, s, index, LinesFrom(current, file[i..]))
      invariant current != "" ==> i > 0 && file[i - 1] != '\n'
    {
      assert file[i..][1..] == file[i + 1..];
      var rest := LinesFrom("", file[i + 1..]);
      assert [] + rest == rest && ([current] + rest)[1..] == rest;
      if file[i] != '\n' {
        current := current + [file[i]];
      } else if current != "" {
        match step(s, index, current) {
          case None => return None;
          case Some(next) => s, index, current := next, index + 1, "";
        }
      }
      i := i + 1;
    }
    r := Some(s);
  }

  /** Walk back from the end to the last newline. */
  method CutTornTail(contents: string) returns (kept: string)
    ensures kept == Repair(contents)
  {
    var keep := |contents|;
    while keep > 0 && contents[keep - 1] != '\n'
      invariant 0 <= keep <= |contents| && KeepLength(contents) <= keep
      invariant forall i | keep <= i < |contents| :: contents[i] != '\n'
    {
      keep := keep - 1;
    }
    kept := contents[..keep];
  }

  lemma KeepTorn(base: string, torn: string)
    requires Boundary(base) && Free(torn, '\n')
    ensures Repair(base + torn) == base
  {
    var s := base + torn;
    var n := KeepLength(s);
    assert forall i | |base| <= i < |s| :: s[i] == torn[i - |base|];
    assert base != "" ==> s[|base| - 1] == '\n';
    assert n == |base|;
    assert s[..|base|] == base;
  }

  /** Bytes without a line end never change what a repair keeps. */
  lemma KeepTornTail(s: string, torn: string)
    requires Free(torn, '\n')
    ensures Repair(s + torn) == Repair(s)
  {
    var n := KeepLength(s);
    KeepTorn(Repair(s), s[n..] + torn);
    assert s + torn == Repair(s) + (s[n..] + torn);
  }

  lemma RepairedWhole(s: string)
    requires Boundary(s)
    ensures Repair(s) == s
  {
    assert s[..|s|] == s;
  }
}
