/** Slug derivation shared by the create handler and the custom-agent
    update: `name.toLowerCase().replace(/\s+/g, '-')`. */
module Slug {
  import opened Text

  /** Lowercase `name` and replace every maximal whitespace run by one `-`. */
  function Slugify(name: string): string {
    Scan(name, false)
  }

  /** The left-to-right scan behind `Slugify`; `inRun` says whether the
      character before `s` was whitespace already turned into `-`. */
  function Scan(s: string, inRun: bool): string {
    if s == [] then [] else Emit(s[0], inRun) + Scan(s[1..], IsSpace(s[0]))
  }

  /** What one character contributes: a whitespace character gives `-` at
      the start of a run and nothing inside one; any other character gives
      its lowercase. */
  function Emit(c: char, inRun: bool): string {
    if IsSpace(c) then (if inRun then [] else "-") else [LowerChar(c)]
  }

  /** Whether a scan is inside a whitespace run after reading `s`. */
  function RunAfter(s: string, inRun: bool): bool {
    if s == [] then inRun else IsSpace(s[|s| - 1])
  }

  /** A slug is no longer than the name and holds neither whitespace nor
      upper-case letters. */
  lemma {:induction false} ScanShape(s: string, inRun: bool)
    ensures |Scan(s, inRun)| <= |s|
    ensures forall i :: 0 <= i < |Scan(s, inRun)| ==>
      !IsSpace(Scan(s, inRun)[i]) && !IsUpper(Scan(s, inRun)[i])
  {
    if s != [] {
      ScanShape(s[1..], IsSpace(s[0]));
    }
  }

  /** A scan splits at any cut, the second half starting in the state the
      first half ends in. */
  lemma {:induction false} ScanAppend(a: string, b: string, inRun: bool)
    ensures Scan(a + b, inRun) == Scan(a, inRun) + Scan(b, RunAfter(a, inRun))
    decreases |a|, 1
  {
    if a == [] {
      assert a + b == b;
    } else {
      assert a == [a[0]] + a[1..];
      ScanAppendCons(a[0], a[1..], b, inRun);
    }
  }

  lemma {:induction false} ScanAppendCons(c: char, rest: string, b: string, inRun: bool)
    ensures Scan([c] + rest + b, inRun) == Scan([c] + rest, inRun) + Scan(b, RunAfter([c] + rest, inRun))
    decreases |rest| + 1, 0
  {
    assert [c] + rest + b == [c] + (rest + b);
    ScanCons(c, rest + b, inRun);
    ScanCons(c, rest, inRun);
    ScanAppend(rest, b, IsSpace(c));
    RunAfterCons(c, rest, inRun);
    AppendAssoc(Emit(c, inRun), Scan(rest, IsSpace(c)), Scan(b, RunAfter(rest, IsSpace(c))));
  }

  lemma AppendAssoc(x: string, y: string, z: string)
    ensures x + (y + z) == (x + y) + z
  {
  }

  lemma RunAfterCons(c: char, rest: string, inRun: bool)
    ensures RunAfter([c] + rest, inRun) == RunAfter(rest, IsSpace(c))
  {
    if rest != [] {
      assert ([c] + rest)[|rest|] == rest[|rest| - 1];
    }
  }

  lemma ScanCons(c: char, s: string, inRun: bool)
    ensures Scan([c] + s, inRun) == Emit(c, inRun) + Scan(s, IsSpace(c))
  {
    assert ([c] + s)[1..] == s;
  }

  /** A word without whitespace is only lowercased. */
  lemma {:induction false} ScanWord(w: string, inRun: bool)
    requires forall i :: 0 <= i < |w| ==> !IsSpace(w[i])
    ensures Scan(w, inRun) == Lower(w)
  {
    if w != [] {
      ScanWord(w[1..], false);
    }
  }

  /** A non-empty whitespace run becomes a single hyphen. */
  lemma {:induction false} SlugifyRun(sp: string)
    requires sp != []
    requires forall i :: 0 <= i < |sp| ==> IsSpace(sp[i])
    ensures Slugify(sp) == "-"
  {
    ScanRunInside(sp[1..]);
  }

  lemma {:induction false} ScanRunInside(sp: string)
    requires forall i :: 0 <= i < |sp| ==> IsSpace(sp[i])
    ensures Scan(sp, true) == []
  {
    if sp != [] {
      ScanRunInside(sp[1..]);
    }
  }

  /** The slug of a name: lowercase, free of whitespace, and never longer. */
  lemma SlugifyShape(name: string)
    ensures |Slugify(name)| <= |name|
    ensures forall i :: 0 <= i < |Slugify(name)| ==>
      !IsSpace(Slugify(name)[i]) && !IsUpper(Slugify(name)[i])
  {
    ScanShape(name, false);
  }

  /** A slug is its own slug. */
  lemma SlugifyIdempotent(name: string)
    ensures Slugify(Slugify(name)) == Slugify(name)
  {
    var slug := Slugify(name);
    SlugifyShape(name);
    ScanWord(slug, false);
    assert Lower(slug) == slug;
  }

  /** Slugs compose across a cut that does not split a whitespace run. */
  lemma SlugifyAppend(a: string, b: string)
    requires a == [] || b == [] || !IsSpace(a[|a| - 1]) || !IsSpace(b[0])
    ensures Slugify(a + b) == Slugify(a) + Slugify(b)
  {
    ScanAppend(a, b, false);
    if b != [] && RunAfter(a, false) {
      assert Scan(b, true) == Scan(b, false);
    }
  }

  /** Two words around a whitespace run of any length: `"A  B"` has slug `"a-b"`. */
  lemma {:induction false} SlugifyTwoWords(w1: string, gap: string, w2: string)
    requires w1 != [] && w2 != [] && gap != []
    requires forall i :: 0 <= i < |w1| ==> !IsSpace(w1[i])
    requires forall i :: 0 <= i < |w2| ==> !IsSpace(w2[i])
    requires forall i :: 0 <= i < |gap| ==> IsSpace(gap[i])
    ensures Slugify(w1 + gap + w2) == Lower(w1) + "-" + Lower(w2)
  {
    SlugifyAppend(w1 + gap, w2);
    SlugifyAppend(w1, gap);
    ScanWord(w1, false);
    ScanWord(w2, false);
    SlugifyRun(gap);
  }

  /** No whitespace character is directly followed by another. */
  predicate SingleSpaced(s: string) {
    forall i :: 0 <= i < |s| - 1 ==> !(IsSpace(s[i]) && IsSpace(s[i + 1]))
  }

  /** Without adjacent whitespace every character yields exactly one
      character of the slug. */
  lemma {:induction false} ScanLengthSingleSpaced(s: string, inRun: bool)
    requires SingleSpaced(s)
    requires inRun ==> s == [] || !IsSpace(s[0])
    ensures |Scan(s, inRun)| == |s|
  {
    if s != [] {
      assert SingleSpaced(s[1..]) by {
        forall i | 0 <= i < |s[1..]| - 1
          ensures !(IsSpace(s[1..][i]) && IsSpace(s[1..][i + 1]))
        {
          assert s[1..][i] == s[i + 1] && s[1..][i + 1] == s[i + 2];
        }
      }
      assert |s| > 1 && IsSpace(s[0]) ==> !IsSpace(s[1]);
      ScanLengthSingleSpaced(s[1..], IsSpace(s[0]));
    }
  }

  lemma SlugifyLengthSingleSpaced(name: string)
    requires SingleSpaced(name)
    ensures |Slugify(name)| == |name|
  {
    ScanLengthSingleSpaced(name, false);
  }
}
