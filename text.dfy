/** String helpers: ASCII upper case, Python's substring test `kw in s`,
    and suffix handling for derived column names such as "goals_normalized". */
module Text {
  import opened Base

  /** `str.upper` on one character, for the ASCII letters a-z. */
  function UpperChar(c: char): char
  {
    if 'a' <= c <= 'z' then (c as int - 'a' as int + 'A' as int) as char else c
  }

  function Upper(s: string): string
  {
    seq(|s|, i requires 0 <= i < |s| => UpperChar(s[i]))
  }

  /** The characters of kw from index k on match s from index i + k on. */
  predicate MatchAt(s: string, kw: string, i: nat, k: nat)
    requires i + |kw| <= |s|
    decreases |kw| - k
  {
    k >= |kw| || (s[i + k] == kw[k] && MatchAt(s, kw, i, k + 1))
  }

  /** kw occurs in s at some index i or later. */
  predicate ContainsFrom(s: string, kw: string, i: nat)
    decreases |s| - i
  {
    i + |kw| <= |s| && (MatchAt(s, kw, i, 0) || ContainsFrom(s, kw, i + 1))
  }

  /** Python's `kw in s` for strings: kw occurs in s as a contiguous block. */
  predicate Contains(s: string, kw: string)
  {
    ContainsFrom(s, kw, 0)
  }

  /** Some keyword from index j of kws on occurs in s. */
  predicate AnyFrom(s: string, kws: seq<string>, j: nat)
    decreases |kws| - j
  {
    j < |kws| && (Contains(s, kws[j]) || AnyFrom(s, kws, j + 1))
  }

  /** Python's `any(kw in s for kw in kws)`. */
  predicate ContainsAny(s: string, kws: seq<string>)
  {
    AnyFrom(s, kws, 0)
  }

  /** kw sits in s starting at index i. */
  predicate OccursAt(s: string, kw: string, i: int)
  {
    0 <= i <= |s| - |kw| && s[i..i + |kw|] == kw
  }

  lemma {:induction false} MatchAtChars(s: string, kw: string, i: nat, k: nat)
    requires i + |kw| <= |s| && k <= |kw|
    ensures MatchAt(s, kw, i, k) <==> forall m :: k <= m < |kw| ==> s[i + m] == kw[m]
    decreases |kw| - k
  {
    if k < |kw| {
      MatchAtChars(s, kw, i, k + 1);
    }
  }

  /** The character test at i is the block test at i. */
  lemma MatchAtOccurs(s: string, kw: string, i: nat)
    requires i + |kw| <= |s|
    ensures MatchAt(s, kw, i, 0) <==> OccursAt(s, kw, i)
  {
    MatchAtChars(s, kw, i, 0);
    if MatchAt(s, kw, i, 0) {
      assert s[i..i + |kw|] == kw;
    }
  }

  /** An occurrence at index i at or after j is found by the recursive test. */
  lemma {:induction false} OccursContainsFrom(s: string, kw: string, i: int, j: nat)
    requires OccursAt(s, kw, i) && j <= i
    ensures ContainsFrom(s, kw, j)
    decreases i - j
  {
    if j < i {
      OccursContainsFrom(s, kw, i, j + 1);
    } else {
      MatchAtOccurs(s, kw, i);
    }
  }

  lemma OccursContains(s: string, kw: string, i: int)
    requires OccursAt(s, kw, i)
    ensures Contains(s, kw)
  {
    OccursContainsFrom(s, kw, i, 0);
  }

  /** The recursive test only succeeds where there is an occurrence. */
  lemma {:induction false} ContainsFromOccurs(s: string, kw: string, j: nat) returns (i: int)
    requires ContainsFrom(s, kw, j)
    ensures OccursAt(s, kw, i) && j <= i
    decreases |s| - j
  {
    MatchAtOccurs(s, kw, j);
    if MatchAt(s, kw, j, 0) {
      i := j;
    } else {
      i := ContainsFromOccurs(s, kw, j + 1);
    }
  }

  lemma ContainsOccurs(s: string, kw: string) returns (i: int)
    requires Contains(s, kw)
    ensures OccursAt(s, kw, i)
  {
    i := ContainsFromOccurs(s, kw, 0);
  }

  /** The recursive substring test agrees with the index-based definition. */
  lemma ContainsAt(s: string, kw: string)
    ensures Contains(s, kw) <==> exists i :: OccursAt(s, kw, i)
  {
    if Contains(s, kw) {
      var i := ContainsOccurs(s, kw);
    }
    if i :| OccursAt(s, kw, i) {
      OccursContains(s, kw, i);
    }
  }

  lemma {:induction false} AnyFromAt(s: string, kws: seq<string>, j: nat)
    ensures AnyFrom(s, kws, j) <==> exists m :: j <= m < |kws| && Contains(s, kws[m])
    decreases |kws| - j
  {
    if j < |kws| {
      AnyFromAt(s, kws, j + 1);
    }
  }

  /** `any` holds exactly when one of the keywords occurs. */
  lemma ContainsAnyAt(s: string, kws: seq<string>)
    ensures ContainsAny(s, kws) <==> exists m :: 0 <= m < |kws| && Contains(s, kws[m])
  {
    AnyFromAt(s, kws, 0);
  }

  /** Containment is transitive: a label holding "CDM" also holds "DM". */
  lemma ContainsTrans(s: string, t: string, kw: string)
    requires Contains(s, t) && Contains(t, kw)
    ensures Contains(s, kw)
  {
    var i := ContainsOccurs(s, t);
    var j := ContainsOccurs(t, kw);
    forall k | 0 <= k < |kw|
      ensures s[i + j + k] == kw[k]
    {
      assert s[i..i + |t|][j + k] == t[j + k];
      assert t[j..j + |kw|][k] == kw[k];
    }
    assert s[i + j..i + j + |kw|] == kw;
    OccursContains(s, kw, i + j);
  }

  /** `k` with the suffix `suf` removed, when `k` ends with it. */
  function StripSuffix(k: string, suf: string): (b: Option<string>)
    ensures b.Some? <==> (|suf| <= |k| && k[|k| - |suf|..] == suf)
    ensures b.Some? ==> b.value + suf == k
  {
    if |suf| <= |k| && k[|k| - |suf|..] == suf then
      assert k[..|k| - |suf|] + k[|k| - |suf|..] == k;
      Some(k[..|k| - |suf|])
    else None
  }

  /** Appending a suffix and stripping it again gives the original name back,
      so distinct columns get distinct derived names. */
  lemma StripAppended(c: string, suf: string)
    ensures StripSuffix(c + suf, suf) == Some(c)
  {
    assert (c + suf)[|c|..] == suf;
    assert (c + suf)[..|c|] == c;
  }

  /** Upper-casing the worked position labels. */
  lemma UpperExamples()
    ensures Upper("DF,MF") == "DF,MF" && Upper("dF,mf") == "DF,MF"
    ensures Upper("cdm") == "CDM" && Upper("st") == "ST" && Upper("Gk") == "GK"
    ensures Upper("CB") == "CB" && Upper("SS") == "SS" && Upper("rwb") == "RWB"
  {
    assert Upper("DF,MF") == "DF,MF";
    assert Upper("dF,mf") == "DF,MF";
    assert Upper("cdm") == "CDM";
    assert Upper("st") == "ST";
    assert Upper("Gk") == "GK";
    assert Upper("CB") == "CB";
    assert Upper("SS") == "SS";
    assert Upper("rwb") == "RWB";
  }

  /** Which of the worked labels hold the goalkeeper keyword. */
  lemma GoalkeeperExamples()
    ensures !Contains("DF,MF", "GK") && !Contains("CDM", "GK") && !Contains("ST", "GK")
    ensures Contains("GK", "GK") && !Contains("CB", "GK") && !Contains("SS", "GK")
    ensures !Contains("RWB", "GK")
  {
  }
}
