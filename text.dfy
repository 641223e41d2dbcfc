/**
 * Case-insensitive substring matching, the `icontains` lookup of the prompt search.
 * The store is SQLite, whose LIKE folds case for ASCII letters only, so folding
 * here is ASCII lowering; the LIKE wildcards in the search term are escaped by the
 * ORM, so the term matches as a literal substring.
 */
module Text {
  import opened Seqs

  /** ASCII lowering of one character; every other character is left alone. */
  function LowerChar(c: char): char {
    if 'A' <= c <= 'Z' then (c as int - 'A' as int + 'a' as int) as char else c
  }

  /** ASCII lowering of a string, character by character. */
  function Lower(s: string): (r: string)
    ensures |r| == |s|
    ensures forall i :: 0 <= i < |s| ==> r[i] == LowerChar(s[i])
  {
    if s == [] then [] else [LowerChar(s[0])] + Lower(s[1..])
  }

  predicate IsPrefix(p: string, s: string) {
    |p| <= |s| && s[..|p|] == p
  }

  /** `sub` occurs somewhere in `s` as a contiguous substring. */
  predicate Contains(s: string, sub: string)
    decreases |s|
  {
    IsPrefix(sub, s) || (|s| > 0 && Contains(s[1..], sub))
  }

  /** The `icontains` lookup: `sub` occurs in `s` once both are lowered. */
  predicate ContainsIgnoringCase(s: string, sub: string) {
    Contains(Lower(s), Lower(sub))
  }

  /** `icontains` holds exactly when the folded term starts at some position of the folded text. */
  lemma ContainsIgnoringCaseIffOccurrence(s: string, sub: string)
    ensures ContainsIgnoringCase(s, sub) <==> exists i :: 0 <= i <= |s| && IsPrefix(Lower(sub), Lower(s)[i..])
  {
    ContainsIffOccurrence(Lower(s), Lower(sub));
    assert |Lower(s)| == |s|;
  }

  /** `Contains` finds exactly the positions at which `sub` starts in `s`. */
  lemma {:induction false} ContainsIffOccurrence(s: string, sub: string)
    ensures Contains(s, sub) <==> exists i :: 0 <= i <= |s| && IsPrefix(sub, s[i..])
  {
    if IsPrefix(sub, s) {
      assert s[0..] == s;
    } else if |s| == 0 {
      forall i | 0 <= i <= |s| ensures !IsPrefix(sub, s[i..]) {
        assert s[i..] == s;
      }
    } else {
      ContainsIffOccurrence(s[1..], sub);
      if Contains(s[1..], sub) {
        var i :| 0 <= i <= |s[1..]| && IsPrefix(sub, s[1..][i..]);
        assert s[1..][i..] == s[i + 1..];
      } else {
        forall i | 0 <= i <= |s| ensures !IsPrefix(sub, s[i..]) {
          if i == 0 {
            assert s[0..] == s;
          } else {
            assert s[1..][i - 1..] == s[i..];
          }
        }
      }
    }
  }

  /** A text that has `sub` embedded in it contains `sub`. */
  lemma {:induction false} ContainsInfix(a: string, sub: string, b: string)
    ensures Contains(a + sub + b, sub)
  {
    if a == [] {
      assert a + sub + b == sub + b;
      assert (sub + b)[..|sub|] == sub;
    } else {
      ContainsInfix(a[1..], sub, b);
      assert (a + sub + b)[1..] == a[1..] + sub + b;
    }
  }

  /** Lowering distributes over concatenation. */
  lemma {:induction false} LowerConcat(a: string, b: string)
    ensures Lower(a + b) == Lower(a) + Lower(b)
  {
    if a == [] {
      assert a + b == b;
    } else {
      var t := a + b;
      assert t[0] == a[0] && t[1..] == a[1..] + b;
      LowerConcat(a[1..], b);
      calc {
        Lower(t);
        [LowerChar(a[0])] + Lower(a[1..] + b);
        [LowerChar(a[0])] + (Lower(a[1..]) + Lower(b));
        { SeqAppendAssoc([LowerChar(a[0])], Lower(a[1..]), Lower(b)); }
        ([LowerChar(a[0])] + Lower(a[1..])) + Lower(b);
      }
    }
  }

  /** A text matches, ignoring case, every search term that occurs in it in any casing. */
  lemma ContainsIgnoringCaseInfix(a: string, sub: string, b: string, term: string)
    requires Lower(term) == Lower(sub)
    ensures ContainsIgnoringCase(a + sub + b, term)
  {
    LowerConcat(a + sub, b);
    LowerConcat(a, sub);
    ContainsInfix(Lower(a), Lower(sub), Lower(b));
  }
}
