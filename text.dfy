/** Python's `str.replace(key, val)` and `str.count(key)` for a non-empty key:
    a left-to-right scan that rewrites (or counts) non-overlapping occurrences. */
module Text {
  import Arith

  /** `key` starts at position i of s. */
  predicate OccursAt(s: string, key: string, i: int)
  {
    0 <= i && i + |key| <= |s| && s[i..i + |key|] == key
  }

  /** `key in s` */
  predicate Occurs(s: string, key: string)
  {
    exists i :: 0 <= i <= |s| && OccursAt(s, key, i)
  }

  /** `s.replace(key, val)` */
  function Replace(s: string, key: string, val: string): string
    requires |key| > 0
    decreases |s|
  {
    if |s| < |key| then s
    else if s[..|key|] == key then val + Replace(s[|key|..], key, val)
    else [s[0]] + Replace(s[1..], key, val)
  }

  /** `s.count(key)`: the number of non-overlapping occurrences, scanning left to right. */
  function Count(s: string, key: string): nat
    requires |key| > 0
    decreases |s|
  {
    if |s| < |key| then 0
    else if s[..|key|] == key then 1 + Count(s[|key|..], key)
    else Count(s[1..], key)
  }

  lemma OccursShort(s: string, key: string)
    requires |s| < |key|
    ensures !Occurs(s, key)
  {
  }

  lemma OccursPrefix(s: string, key: string)
    requires |key| <= |s| && s[..|key|] == key
    ensures Occurs(s, key)
  {
    assert OccursAt(s, key, 0);
  }

  /** When key does not start s, it occurs in s exactly when it occurs in s[1..]. */
  lemma OccursTail(s: string, key: string)
    requires |key| > 0 && |key| <= |s| && s[..|key|] != key
    ensures Occurs(s, key) <==> Occurs(s[1..], key)
  {
    if Occurs(s, key) {
      var i :| 0 <= i <= |s| && OccursAt(s, key, i);
      assert i != 0;
      assert s[1..][i - 1..i - 1 + |key|] == s[i..i + |key|];
      assert OccursAt(s[1..], key, i - 1);
    }
    if Occurs(s[1..], key) {
      var i :| 0 <= i <= |s[1..]| && OccursAt(s[1..], key, i);
      var t := s[1..];
      assert 0 <= i && i + |key| <= |t| && t[i..i + |key|] == key;
      assert s[i + 1..i + 1 + |key|] == t[i..i + |key|];
      assert OccursAt(s, key, i + 1);
    }
  }

  /** The count is zero exactly when the key does not occur. */
  lemma {:induction false} CountZeroIff(s: string, key: string)
    requires |key| > 0
    ensures Count(s, key) == 0 <==> !Occurs(s, key)
    decreases |s|
  {
    if |s| < |key| {
      OccursShort(s, key);
    } else if s[..|key|] == key {
      OccursPrefix(s, key);
    } else {
      OccursTail(s, key);
      CountZeroIff(s[1..], key);
    }
  }

  /** Each replacement changes the length by |val| - |key|. */
  lemma {:induction false} ReplaceLength(s: string, key: string, val: string)
    requires |key| > 0
    ensures |Replace(s, key, val)| == |s| + Count(s, key) * (|val| - |key|)
    decreases |s|
  {
    if |s| < |key| {
    } else if s[..|key|] == key {
      var rest := s[|key|..];
      ReplaceLength(rest, key, val);
      var c, d := Count(rest, key), |val| - |key|;
      calc {
        |Replace(s, key, val)|;
        |val| + |Replace(rest, key, val)|;
        |val| + |rest| + c * d;
        { Arith.MulSucc(c, d); }
        |s| + (1 + c) * d;
      }
    } else {
      ReplaceLength(s[1..], key, val);
    }
  }

  /** A key at the start of s that is replaced by a different text changes s. */
  lemma ReplaceAtStartChanges(s: string, key: string, val: string)
    requires 0 < |key| <= |s| && s[..|key|] == key && val != key
    ensures Replace(s, key, val) != s
  {
    var r := Replace(s, key, val);
    if |val| == |key| {
      assert r[..|key|] == val;
      assert s[..|key|] == key;
    } else {
      ReplaceLength(s, key, val);
      var c, d := Count(s, key), |val| - |key|;
      assert c >= 1;
      Arith.MulNonZero(c, d);
    }
  }

  /** Replacing leaves the text as it was exactly when the key is absent or
      is replaced by itself. */
  lemma {:induction false} ReplaceUnchangedIff(s: string, key: string, val: string)
    requires |key| > 0
    ensures Replace(s, key, val) == s <==> (!Occurs(s, key) || val == key)
    decreases |s|
  {
    if |s| < |key| {
      OccursShort(s, key);
    } else if s[..|key|] == key {
      OccursPrefix(s, key);
      if val == key {
        var rest := s[|key|..];
        ReplaceUnchangedIff(rest, key, val);
        assert s == key + rest;
      } else {
        ReplaceAtStartChanges(s, key, val);
      }
    } else {
      OccursTail(s, key);
      ReplaceUnchangedIff(s[1..], key, val);
      assert s == [s[0]] + s[1..];
    }
  }

  /** A key that does not occur leaves the text unchanged, whatever it is replaced by. */
  lemma ReplaceAbsent(s: string, key: string, val: string)
    requires |key| > 0 && !Occurs(s, key)
    ensures Replace(s, key, val) == s
  {
    ReplaceUnchangedIff(s, key, val);
  }

  /** key occurs at p, at no earlier position, and nowhere in the text after
      that occurrence: the scan meets it at p and finds nothing more. */
  predicate SoleAt(s: string, key: string, p: int)
  {
    && OccursAt(s, key, p)
    && (forall q :: 0 <= q < p ==> !OccursAt(s, key, q))
    && !Occurs(s[p + |key|..], key)
  }

  /** Past a first character where key does not start, key is still sole,
      one position earlier. */
  lemma SoleAtTail(s: string, key: string, p: int)
    requires |key| > 0 && p > 0 && SoleAt(s, key, p)
    ensures |key| <= |s| && s[..|key|] != key && SoleAt(s[1..], key, p - 1)
  {
    assert !OccursAt(s, key, 0);
    var t := s[1..];
    forall q | 0 <= q < p - 1 ensures !OccursAt(t, key, q) {
      assert !OccursAt(s, key, q + 1);
      assert t[q..q + |key|] == s[q + 1..q + 1 + |key|];
    }
    assert t[p - 1..p - 1 + |key|] == s[p..p + |key|];
    assert t[p - 1 + |key|..] == s[p + |key|..];
  }

  /** The value takes the place of the key: the text before the occurrence
      is kept, the key becomes val, the text after it is kept. */
  lemma {:induction false} ReplaceSole(s: string, key: string, val: string, p: int)
    requires |key| > 0 && SoleAt(s, key, p)
    ensures Replace(s, key, val) == s[..p] + val + s[p + |key|..]
    decreases p
  {
    if p == 0 {
      assert s[..|key|] == key;
      ReplaceAbsent(s[|key|..], key, val);
      assert Replace(s, key, val) == val + s[|key|..];
    } else {
      SoleAtTail(s, key, p);
      var t := s[1..];
      assert Replace(s, key, val) == [s[0]] + Replace(t, key, val);
      ReplaceSole(t, key, val, p - 1);
      assert t[p - 1 + |key|..] == s[p + |key|..];
      assert s[..p] == [s[0]] + t[..p - 1];
    }
  }

  /** Replacing can leave the key in the text: the scan removes the middle
      occurrence of "@xVw@" and its value "V" joins the characters around it
      into a new one. */
  lemma ReplaceCanRecreateKey()
    ensures Replace("@x@xVw@w@", "@xVw@", "V") == "@xVw@"
  {
  }
}
