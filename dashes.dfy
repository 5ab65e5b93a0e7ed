/**
 * The string rewrite that the slug generators share: a global regular
 * expression replacement of every maximal run of "separator" characters by
 * a single hyphen, as in `s.replace(/[^a-z0-9]+/g, "-")`.
 */
module Dashes {
  import Seqs

  predicate NoDoubleHyphen(s: string) {
    forall i :: 0 <= i < |s| - 1 ==> s[i] != '-' || s[i + 1] != '-'
  }

  lemma ConsNoDoubleHyphen(c: char, t: string)
    requires NoDoubleHyphen(t)
    requires c != '-' || t == [] || t[0] != '-'
    ensures NoDoubleHyphen([c] + t)
  {
    var r := [c] + t;
    forall i | 0 <= i < |r| - 1 ensures r[i] != '-' || r[i + 1] != '-' {
      assert r[i + 1] == t[i];
      if i > 0 { assert r[i] == t[i - 1]; }
    }
  }

  /** `s` without its leading run of separators. */
  function DropWhile(s: string, sep: char -> bool): (r: string)
    ensures |r| <= |s|
    ensures r == [] || !sep(r[0])
    ensures forall c :: c in r ==> c in s
    ensures forall i :: 0 <= i < |s| - |r| ==> sep(s[i])
    ensures r == s[|s| - |r|..]
    decreases |s|
  {
    if s != [] && sep(s[0]) then
      var r := DropWhile(s[1..], sep);
      assert forall i :: 1 <= i < |s| - |r| ==> s[i] == s[1..][i - 1];
      r
    else s
  }

  /** Every maximal run of characters that `sep` accepts, replaced by one `-`. */
  function Dashed(s: string, sep: char -> bool): (r: string)
    ensures s == [] <==> r == []
    ensures s != [] && !sep(s[0]) ==> r[0] == s[0]
    ensures s != [] && sep(s[0]) ==> r[0] == '-'
    decreases |s|
  {
    if s == [] then []
    else if sep(s[0]) then ['-'] + Dashed(DropWhile(s[1..], sep), sep)
    else [s[0]] + Dashed(s[1..], sep)
  }

  /** The output holds hyphens and the input's non-separators, nothing else. */
  lemma {:induction false} DashedAlphabet(s: string, sep: char -> bool)
    ensures forall c :: c in Dashed(s, sep) ==> c == '-' || (c in s && !sep(c))
    decreases |s|
  {
    if s != [] {
      if sep(s[0]) {
        var d := DropWhile(s[1..], sep);
        DashedAlphabet(d, sep);
      } else {
        DashedAlphabet(s[1..], sep);
      }
    }
  }

  /** When `-` is itself a separator, no two hyphens of the output are adjacent. */
  lemma {:induction false} DashedSingleHyphens(s: string, sep: char -> bool)
    requires sep('-')
    ensures NoDoubleHyphen(Dashed(s, sep))
    decreases |s|
  {
    if s != [] {
      if sep(s[0]) {
        var d := DropWhile(s[1..], sep);
        DashedSingleHyphens(d, sep);
        ConsNoDoubleHyphen('-', Dashed(d, sep));
      } else {
        DashedSingleHyphens(s[1..], sep);
        ConsNoDoubleHyphen(s[0], Dashed(s[1..], sep));
      }
    }
  }

  /** Dropping a leading run of separators keeps every character a test keeps, when no separator passes it. */
  lemma {:induction false} DropWhileKeeps(s: string, sep: char -> bool, keep: char -> bool)
    requires forall c :: sep(c) ==> !keep(c)
    ensures Seqs.Filter(DropWhile(s, sep), keep) == Seqs.Filter(s, keep)
    decreases |s|
  {
    if s != [] && sep(s[0]) {
      DropWhileKeeps(s[1..], sep, keep);
    }
  }

  /**
   * The characters that are neither separators nor hyphens come through in
   * their old order, and nothing else does besides hyphens.
   */
  lemma {:induction false} DashedKeeps(s: string, sep: char -> bool, keep: char -> bool)
    requires forall c :: keep(c) <==> !sep(c) && c != '-'
    ensures Seqs.Filter(Dashed(s, sep), keep) == Seqs.Filter(s, keep)
    decreases |s|
  {
    if s != [] {
      if sep(s[0]) {
        var d := DropWhile(s[1..], sep);
        DashedKeeps(d, sep, keep);
        DropWhileKeeps(s[1..], sep, keep);
        assert Dashed(s, sep) == ['-'] + Dashed(d, sep);
      } else {
        DashedKeeps(s[1..], sep, keep);
        assert Dashed(s, sep) == [s[0]] + Dashed(s[1..], sep);
      }
    }
  }

  /** Without separators there is nothing to replace. */
  lemma {:induction false} DashedOfFree(s: string, sep: char -> bool)
    requires forall i :: 0 <= i < |s| ==> !sep(s[i])
    ensures Dashed(s, sep) == s
    decreases |s|
  {
    if s != [] {
      DashedOfFree(s[1..], sep);
    }
  }

  /** Single hyphens that are the only separators stay as they are. */
  lemma {:induction false} DashedOfSingleHyphens(s: string, sep: char -> bool)
    requires forall i :: 0 <= i < |s| ==> sep(s[i]) ==> s[i] == '-'
    requires NoDoubleHyphen(s)
    ensures Dashed(s, sep) == s
    decreases |s|
  {
    if s != [] {
      var t := s[1..];
      assert forall i :: 0 <= i < |t| ==> t[i] == s[i + 1];
      DashedOfSingleHyphens(t, sep);
      DashedStep(s, sep);
    }
  }

  lemma DashedStep(s: string, sep: char -> bool)
    requires s != [] && Dashed(s[1..], sep) == s[1..]
    requires sep(s[0]) ==> s[0] == '-'
    requires |s| > 1 && sep(s[1]) ==> s[1] == '-'
    requires |s| > 1 ==> s[0] != '-' || s[1] != '-'
    ensures Dashed(s, sep) == s
  {
    var t := s[1..];
    if sep(s[0]) {
      assert t == [] || !sep(t[0]);
      assert DropWhile(t, sep) == t;
    }
    assert s == [s[0]] + t;
  }

  /** Without hyphens in the input, the hyphens of the output are single even when `-` is no separator. */
  lemma {:induction false} DashedNoDoubleHyphen(s: string, sep: char -> bool)
    requires '-' !in s
    ensures NoDoubleHyphen(Dashed(s, sep))
    decreases |s|
  {
    if s != [] {
      if sep(s[0]) {
        var d := DropWhile(s[1..], sep);
        DashedNoDoubleHyphen(d, sep);
        if d != [] {
          assert d[0] in s[1..];
        }
        ConsNoDoubleHyphen('-', Dashed(d, sep));
      } else {
        DashedNoDoubleHyphen(s[1..], sep);
        assert s[0] in s;
        ConsNoDoubleHyphen(s[0], Dashed(s[1..], sep));
      }
    }
  }

  lemma DashedCons(c: char, u: string, sep: char -> bool)
    requires !sep(c)
    ensures Dashed([c] + u, sep) == [c] + Dashed(u, sep)
  {
    ConsParts(c, u);
  }

  /** A prefix without separators passes through unchanged. */
  lemma {:induction false} DashedFreePrefix(a: string, t: string, sep: char -> bool)
    requires forall i :: 0 <= i < |a| ==> !sep(a[i])
    ensures Dashed(a + t, sep) == a + Dashed(t, sep)
    decreases |a|
  {
    if a == [] {
      EmptyPrefix(a, t);
      EmptyPrefix(a, Dashed(t, sep));
    } else {
      var rest := a[1..];
      assert forall i :: 0 <= i < |rest| ==> rest[i] == a[i + 1];
      DashedFreePrefix(rest, t, sep);
      ConsPrefix(a, t);
      DashedCons(a[0], rest + t, sep);
      ConsPrefix(a, Dashed(t, sep));
    }
  }

  lemma EmptyPrefix(a: string, t: string)
    requires a == []
    ensures a + t == t
  {
  }

  lemma ConsPrefix(a: string, t: string)
    requires a != []
    ensures a + t == [a[0]] + (a[1..] + t)
  {
  }

  lemma ConsParts(c: char, u: string)
    ensures ([c] + u)[0] == c && ([c] + u)[1..] == u
  {
  }

  lemma HeadTail(s: string)
    requires s != []
    ensures s == [s[0]] + s[1..]
  {
  }

  lemma TailOfConcat(p: string, u: string)
    requires p != []
    ensures (p + u)[0] == p[0] && (p + u)[1..] == p[1..] + u
  {
  }

  /** A leading run of separators, all of it, is dropped. */
  lemma {:induction false} DropWhileRun(p: string, u: string, sep: char -> bool)
    requires forall c :: c in p ==> sep(c)
    requires u == [] || !sep(u[0])
    ensures DropWhile(p + u, sep) == u
    decreases |p|
  {
    if p != [] {
      var rest := p[1..];
      assert p[0] in p;
      TailOfConcat(p, u);
      DropWhileRun(rest, u, sep);
    } else {
      EmptyPrefix(p, u);
    }
  }

  lemma DashedSepCons(c: char, u: string, sep: char -> bool)
    requires sep(c)
    ensures Dashed([c] + u, sep) == "-" + Dashed(DropWhile(u, sep), sep)
  {
    ConsParts(c, u);
  }

  /** A non-empty leading run of separators becomes one hyphen. */
  lemma DashedRun(p: string, u: string, sep: char -> bool)
    requires p != [] && forall c :: c in p ==> sep(c)
    requires u == [] || !sep(u[0])
    ensures Dashed(p + u, sep) == "-" + Dashed(u, sep)
  {
    var rest := p[1..];
    assert p[0] in p;
    calc {
      Dashed(p + u, sep);
      { ConsPrefix(p, u); }
      Dashed([p[0]] + (rest + u), sep);
      { DashedSepCons(p[0], rest + u, sep); }
      "-" + Dashed(DropWhile(rest + u, sep), sep);
      { DropWhileRun(rest, u, sep); }
      "-" + Dashed(u, sep);
    }
  }

  /** A single separator before a non-separator becomes one hyphen. */
  lemma DashedSepHead(c: char, u: string, sep: char -> bool)
    requires sep(c) && (u == [] || !sep(u[0]))
    ensures Dashed([c] + u, sep) == "-" + Dashed(u, sep)
  {
    DashedSepCons(c, u, sep);
    assert DropWhile(u, sep) == u;
  }

  /** Two separator tests that agree on the characters of `s` drop the same leading run. */
  lemma {:induction false} DropWhileAgree(s: string, p: char -> bool, q: char -> bool)
    requires forall i :: 0 <= i < |s| ==> (p(s[i]) <==> q(s[i]))
    ensures DropWhile(s, p) == DropWhile(s, q)
    decreases |s|
  {
    if s != [] {
      assert forall i :: 0 <= i < |s[1..]| ==> s[1..][i] == s[i + 1];
      DropWhileAgree(s[1..], p, q);
    }
  }

  /** Two separator tests that agree on the characters of `s`, and on `-`, dash it alike. */
  lemma {:induction false} DashedAgree(s: string, p: char -> bool, q: char -> bool)
    requires forall i :: 0 <= i < |s| ==> (p(s[i]) <==> q(s[i]))
    ensures Dashed(s, p) == Dashed(s, q)
    decreases |s|
  {
    if s != [] {
      var rest := s[1..];
      AgreeOnTail(s, p, q);
      HeadTail(s);
      if p(s[0]) {
        DropWhileAgree(rest, p, q);
        var r := DropWhile(rest, p);
        AgreeOnSuffix(rest, r, p, q);
        calc {
          Dashed(s, p);
          { DashedSepCons(s[0], rest, p); }
          "-" + Dashed(r, p);
          { DashedAgree(r, p, q); }
          "-" + Dashed(DropWhile(rest, q), q);
          { DashedSepCons(s[0], rest, q); }
          Dashed(s, q);
        }
      } else {
        calc {
          Dashed(s, p);
          { DashedCons(s[0], rest, p); }
          [s[0]] + Dashed(rest, p);
          { DashedAgree(rest, p, q); }
          [s[0]] + Dashed(rest, q);
          { DashedCons(s[0], rest, q); }
          Dashed(s, q);
        }
      }
    }
  }

  lemma AgreeOnTail(s: string, p: char -> bool, q: char -> bool)
    requires s != [] && forall i :: 0 <= i < |s| ==> (p(s[i]) <==> q(s[i]))
    ensures forall i :: 0 <= i < |s| - 1 ==> (p(s[1..][i]) <==> q(s[1..][i]))
  {
    forall i | 0 <= i < |s| - 1 ensures p(s[1..][i]) <==> q(s[1..][i]) {
      assert s[1..][i] == s[i + 1];
    }
  }

  lemma AgreeOnSuffix(s: string, r: string, p: char -> bool, q: char -> bool)
    requires |r| <= |s| && r == s[|s| - |r|..]
    requires forall i :: 0 <= i < |s| ==> (p(s[i]) <==> q(s[i]))
    ensures forall i :: 0 <= i < |r| ==> (p(r[i]) <==> q(r[i]))
  {
    forall i | 0 <= i < |r| ensures p(r[i]) <==> q(r[i]) {
      assert r[i] == s[|s| - |r| + i];
    }
  }

  /** Dashing stays within any alphabet that holds `-` and every character of `s`, and leaves no separator but `-`. */
  lemma DashedKeepsAlphabet(s: string, sep: char -> bool, ok: char -> bool)
    requires ok('-') && forall i :: 0 <= i < |s| ==> ok(s[i])
    ensures forall i :: 0 <= i < |Dashed(s, sep)| ==>
      ok(Dashed(s, sep)[i]) && (Dashed(s, sep)[i] == '-' || !sep(Dashed(s, sep)[i]))
  {
    var r := Dashed(s, sep);
    DashedAlphabet(s, sep);
    forall i | 0 <= i < |r| ensures ok(r[i]) && (r[i] == '-' || !sep(r[i])) {
      assert r[i] in r;
      if r[i] != '-' {
        var j :| 0 <= j < |s| && s[j] == r[i];
      }
    }
  }
}
