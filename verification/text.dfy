/** The string operations the title filter relies on: lower-casing and
    substring containment (`String.prototype.toLowerCase` and
    `String.prototype.includes`). Lower-casing is modelled on ASCII letters. */
module Text {

  predicate IsUpper(c: char) {
    'A' <= c <= 'Z'
  }

  /** Lower-cases one ASCII capital; every other character is kept. */
  function LowerChar(c: char): (r: char)
    ensures !IsUpper(r)
    ensures !IsUpper(c) ==> r == c
    ensures IsUpper(c) ==> 'a' <= r <= 'z' && r as int - 'a' as int == c as int - 'A' as int
  {
    if IsUpper(c) then (c as int + 32) as char else c
  }

  /** The lower-cased form of `s`: same length, no capital letters left. */
  function Lower(s: string): (r: string)
    ensures |r| == |s|
    ensures forall i :: 0 <= i < |r| ==> !IsUpper(r[i])
    ensures forall i :: 0 <= i < |r| ==> r[i] == LowerChar(s[i])
  {
    seq(|s|, i requires 0 <= i < |s| => LowerChar(s[i]))
  }

  /** Lower-casing a lower-cased string changes nothing. */
  lemma LowerIdempotent(s: string)
    ensures Lower(Lower(s)) == Lower(s)
  {
  }

  predicate IsPrefix(p: string, s: string) {
    |p| <= |s| && s[..|p|] == p
  }

  /** `needle` occurs in `hay` starting at position `i`. */
  predicate OccursAt(hay: string, needle: string, i: int) {
    0 <= i && i + |needle| <= |hay| && hay[i..i + |needle|] == needle
  }

  /** Substring containment, scanning `hay` from the left: `needle` is a
      prefix of `hay` or of some suffix of it. The empty needle is contained
      in every string. */
  predicate Contains(hay: string, needle: string)
    ensures Contains(hay, needle) ==> |needle| <= |hay|
    decreases |hay|
  {
    IsPrefix(needle, hay) || (|hay| > 0 && Contains(hay[1..], needle))
  }

  /** An occurrence at any position is found by the scan. */
  lemma {:induction false} OccursImpliesContains(hay: string, needle: string, i: int)
    requires OccursAt(hay, needle, i)
    ensures Contains(hay, needle)
    decreases i
  {
    if i == 0 {
      assert IsPrefix(needle, hay);
    } else {
      assert hay[1..][i - 1..i - 1 + |needle|] == hay[i..i + |needle|];
      OccursImpliesContains(hay[1..], needle, i - 1);
    }
  }

  /** Whatever the scan finds is an occurrence at some position. */
  lemma {:induction false} ContainsImpliesOccurs(hay: string, needle: string)
    requires Contains(hay, needle)
    ensures exists i :: OccursAt(hay, needle, i)
    decreases |hay|
  {
    if IsPrefix(needle, hay) {
      assert OccursAt(hay, needle, 0);
    } else {
      ContainsImpliesOccurs(hay[1..], needle);
      var j :| OccursAt(hay[1..], needle, j);
      assert hay[1..][j..j + |needle|] == hay[j + 1..j + 1 + |needle|];
      assert OccursAt(hay, needle, j + 1);
    }
  }

  /** The scan agrees with the positional definition of containment: some
      position of `hay` starts an occurrence of `needle`. */
  lemma ContainsIffOccurs(hay: string, needle: string)
    ensures Contains(hay, needle) <==> exists i :: OccursAt(hay, needle, i)
  {
    if Contains(hay, needle) {
      ContainsImpliesOccurs(hay, needle);
    }
    forall i | OccursAt(hay, needle, i)
      ensures Contains(hay, needle)
    {
      OccursImpliesContains(hay, needle, i);
    }
  }

  /** Every string contains the empty string. */
  lemma ContainsEmpty(hay: string)
    ensures Contains(hay, "")
  {
  }

  /** Case-insensitive containment: `needle` occurs in `hay` once both are
      lower-cased. */
  predicate ContainsIgnoringCase(hay: string, needle: string)
    ensures ContainsIgnoringCase(hay, needle) ==> |needle| <= |hay|
    ensures needle == "" ==> ContainsIgnoringCase(hay, needle)
  {
    Contains(Lower(hay), Lower(needle))
  }

  /** A filter that occurs verbatim in a title also occurs in it ignoring
      case. */
  lemma ContainsImpliesContainsIgnoringCase(hay: string, needle: string)
    requires Contains(hay, needle)
    ensures ContainsIgnoringCase(hay, needle)
  {
    ContainsImpliesOccurs(hay, needle);
    var i :| OccursAt(hay, needle, i);
    assert Lower(hay)[i..i + |needle|] == Lower(needle) by {
      forall j | 0 <= j < |needle|
        ensures Lower(hay)[i..i + |needle|][j] == Lower(needle)[j]
      {
        assert hay[i..i + |needle|][j] == needle[j];
      }
    }
    OccursImpliesContains(Lower(hay), Lower(needle), i);
  }

  /** Containment ignoring case does not see the case of either string. */
  lemma ContainsIgnoringCaseSeesNoCase(hay: string, needle: string)
    ensures ContainsIgnoringCase(hay, needle) == ContainsIgnoringCase(Lower(hay), Lower(needle))
  {
    LowerIdempotent(hay);
    LowerIdempotent(needle);
  }
}
