/**
 * The two string operations the job search relies on, `String.prototype.toLowerCase`
 * and `String.prototype.includes`, over strings modelled as `seq<char>`.
 * Case mapping is restricted to ASCII: 'A'..'Z' become 'a'..'z', every other
 * character is left as it is.
 */
module Text {

  predicate IsUpper(c: char) {
    'A' <= c <= 'Z'
  }

  /** Lower-case one character (ASCII only). */
  function LowerChar(c: char): char {
    if IsUpper(c) then (c as int - 'A' as int + 'a' as int) as char else c
  }

  /** Upper-case one character (ASCII only); used to name the other case of a letter. */
  function UpperChar(c: char): char {
    if 'a' <= c <= 'z' then (c as int - 'a' as int + 'A' as int) as char else c
  }

  /** `s.toLowerCase()`: every character mapped by LowerChar, in place. */
  function Lower(s: string): (r: string)
    ensures |r| == |s|
    ensures forall i :: 0 <= i < |s| ==> !IsUpper(r[i])
    ensures forall i :: 0 <= i < |s| && !IsUpper(s[i]) ==> r[i] == s[i]
  {
    seq(|s|, i requires 0 <= i < |s| => LowerChar(s[i]))
  }

  /** `needle` occurs in `hay` starting at position `i`. */
  predicate OccursAt(needle: string, hay: string, i: nat) {
    i + |needle| <= |hay| && hay[i..i + |needle|] == needle
  }

  /** Specification of "contains as a substring": `needle` occurs somewhere in `hay`. */
  ghost predicate IsSubstring(needle: string, hay: string) {
    exists i: nat :: OccursAt(needle, hay, i)
  }

  /** `hay` begins with `needle`, compared character by character. */
  predicate StartsWith(hay: string, needle: string) {
    needle == [] || (hay != [] && hay[0] == needle[0] && StartsWith(hay[1..], needle[1..]))
  }

  /** `hay.includes(needle)`: try each start position of `hay` from the left. */
  function Includes(hay: string, needle: string): (r: bool)
    ensures needle <= hay ==> r
    ensures r ==> |needle| <= |hay|
    decreases |hay|
  {
    StartsWithIsPrefix(hay, needle);
    StartsWith(hay, needle) || (hay != [] && Includes(hay[1..], needle))
  }

  /** StartsWith is the prefix relation. */
  lemma {:induction false} StartsWithIsPrefix(hay: string, needle: string)
    ensures StartsWith(hay, needle) <==> needle <= hay
  {
    if needle != [] && hay != [] {
      StartsWithIsPrefix(hay[1..], needle[1..]);
      if needle <= hay {
        assert needle[1..] <= hay[1..];
      }
      if hay[0] == needle[0] && needle[1..] <= hay[1..] {
        assert needle == [needle[0]] + needle[1..];
        assert hay == [hay[0]] + hay[1..];
      }
    }
  }

  /** The left-to-right search agrees with the substring specification, both ways. */
  lemma {:induction false} IncludesIsSubstring(hay: string, needle: string)
    ensures Includes(hay, needle) <==> IsSubstring(needle, hay)
    decreases |hay|
  {
    StartsWithIsPrefix(hay, needle);
    if needle <= hay {
      assert OccursAt(needle, hay, 0);
    } else if hay != [] {
      IncludesIsSubstring(hay[1..], needle);
      if IsSubstring(needle, hay) {
        var i: nat :| OccursAt(needle, hay, i);
        assert i != 0;
        assert hay[1..][i - 1..i - 1 + |needle|] == needle;
        assert OccursAt(needle, hay[1..], i - 1);
      }
      if IsSubstring(needle, hay[1..]) {
        var i: nat :| OccursAt(needle, hay[1..], i);
        assert hay[i + 1..i + 1 + |needle|] == needle;
        assert OccursAt(needle, hay, i + 1);
      }
    }
  }

  /** Every string contains the empty string. */
  lemma IncludesEmpty(hay: string)
    ensures Includes(hay, [])
  {
  }

  /** Lower-casing twice is lower-casing once. */
  lemma LowerIdempotent(s: string)
    ensures Lower(Lower(s)) == Lower(s)
  {
  }

  /** A string is its own lower-case form exactly when it has no upper-case letter. */
  lemma LowerFixed(s: string)
    ensures Lower(s) == s <==> forall i :: 0 <= i < |s| ==> !IsUpper(s[i])
  {
    if forall i :: 0 <= i < |s| ==> !IsUpper(s[i]) {
      assert forall i :: 0 <= i < |s| ==> Lower(s)[i] == s[i];
    } else {
      var i :| 0 <= i < |s| && IsUpper(s[i]);
      assert Lower(s)[i] != s[i];
    }
  }

  /** Two characters have the same lower-case form exactly when they have the same upper-case form. */
  lemma SameCharIgnoringCase(x: char, y: char)
    ensures LowerChar(x) == LowerChar(y) <==> UpperChar(x) == UpperChar(y)
  {
  }

  /**
   * Two texts have the same lower-case form exactly when they have the same length and
   * agree position by position once case is ignored ('A' and 'a' alike, anything else as it is).
   */
  lemma LowerEqualIgnoringCase(a: string, b: string)
    ensures Lower(a) == Lower(b)
        <==> (|a| == |b| && forall i :: 0 <= i < |a| ==> UpperChar(a[i]) == UpperChar(b[i]))
  {
    if Lower(a) == Lower(b) {
      forall i | 0 <= i < |a|
        ensures UpperChar(a[i]) == UpperChar(b[i])
      {
        assert Lower(a)[i] == Lower(b)[i];
        SameCharIgnoringCase(a[i], b[i]);
      }
    }
    if |a| == |b| && forall i :: 0 <= i < |a| ==> UpperChar(a[i]) == UpperChar(b[i]) {
      forall i | 0 <= i < |a|
        ensures Lower(a)[i] == Lower(b)[i]
      {
        SameCharIgnoringCase(a[i], b[i]);
      }
    }
  }

  /** Lower-casing works piece by piece. */
  lemma LowerAppend(a: string, b: string)
    ensures Lower(a + b) == Lower(a) + Lower(b)
  {
    assert forall i :: 0 <= i < |a + b| ==> Lower(a + b)[i] == (Lower(a) + Lower(b))[i];
  }

  /** A letter absent from `s` in both cases is absent from `s.toLowerCase()`. */
  lemma LetterAbsentAfterLower(s: string, c: char)
    requires 'a' <= c <= 'z'
    requires c !in s && UpperChar(c) !in s
    ensures c !in Lower(s)
  {
  }

  /** A text that lacks one of the characters of `needle` does not include it. */
  lemma MissingCharNotIncluded(hay: string, needle: string, c: char)
    requires c in needle && c !in hay
    ensures !Includes(hay, needle)
  {
    IncludesIsSubstring(hay, needle);
  }

  /** `hay` includes every window of itself. */
  lemma IncludesAt(hay: string, needle: string, i: nat)
    requires OccursAt(needle, hay, i)
    ensures Includes(hay, needle)
  {
    IncludesIsSubstring(hay, needle);
  }

  /** An occurrence in `a` or in `b` is an occurrence in `a + [c] + b`, shifted for `b`. */
  lemma OccursInJoin(a: string, c: char, b: string, needle: string, i: nat)
    ensures OccursAt(needle, a, i) ==> OccursAt(needle, a + [c] + b, i)
    ensures OccursAt(needle, b, i) ==> OccursAt(needle, a + [c] + b, i + |a| + 1)
  {
    var hay := a + [c] + b;
    if OccursAt(needle, a, i) {
      assert hay[i..i + |needle|] == a[i..i + |needle|];
    }
    if OccursAt(needle, b, i) {
      var j := i + |a| + 1;
      assert hay[j..j + |needle|] == b[i..i + |needle|];
    }
  }

  /** Each character of an occurrence is the character of `hay` at the shifted position. */
  lemma CharOfWindow(needle: string, hay: string, i: nat, k: nat)
    requires OccursAt(needle, hay, i) && k < |needle|
    ensures needle[k] == hay[i + k]
  {
    assert hay[i..i + |needle|][k] == hay[i + k];
  }

  /** An occurrence in `a + [c] + b` of a needle free of `c` lies wholly in `a` or wholly in `b`. */
  lemma OccursInPart(a: string, c: char, b: string, needle: string, i: nat)
    requires c !in needle && OccursAt(needle, a + [c] + b, i)
    ensures i + |needle| <= |a| ==> OccursAt(needle, a, i)
    ensures i + |needle| > |a| ==> i > |a| && OccursAt(needle, b, i - |a| - 1)
  {
    var hay := a + [c] + b;
    if i + |needle| <= |a| {
      assert hay[i..i + |needle|] == a[i..i + |needle|];
    } else if i > |a| {
      assert hay[i..i + |needle|] == b[i - |a| - 1..i - |a| - 1 + |needle|];
    } else {
      CharOfWindow(needle, hay, i, |a| - i);
      assert false;
    }
  }

  /**
   * Whatever `a` or `b` includes, `a + [c] + b` includes; and a needle free of the
   * separator `c` cannot straddle it, so then the converse holds too.
   */
  lemma IncludesAcrossSeparator(a: string, c: char, b: string, needle: string)
    ensures Includes(a, needle) || Includes(b, needle) ==> Includes(a + [c] + b, needle)
    ensures c !in needle ==> Includes(a + [c] + b, needle) ==> Includes(a, needle) || Includes(b, needle)
  {
    var hay := a + [c] + b;
    IncludesIsSubstring(hay, needle);
    IncludesIsSubstring(a, needle);
    IncludesIsSubstring(b, needle);
    if IsSubstring(needle, hay) && c !in needle {
      var i: nat :| OccursAt(needle, hay, i);
      OccursInPart(a, c, b, needle, i);
      if i + |needle| <= |a| {
        assert IsSubstring(needle, a);
      } else {
        assert IsSubstring(needle, b);
      }
    }
    if IsSubstring(needle, a) {
      var i: nat :| OccursAt(needle, a, i);
      OccursInJoin(a, c, b, needle, i);
      assert IsSubstring(needle, hay);
    }
    if IsSubstring(needle, b) {
      var i: nat :| OccursAt(needle, b, i);
      OccursInJoin(a, c, b, needle, i);
      assert IsSubstring(needle, hay);
    }
  }

  /** A window of `s` whose lower-cased characters spell `needle` makes `s.toLowerCase()` include it. */
  lemma LowerIncludesAt(s: string, needle: string, i: nat)
    requires i + |needle| <= |s|
    requires forall k :: 0 <= k < |needle| ==> LowerChar(s[i + k]) == needle[k]
    ensures Includes(Lower(s), needle)
  {
    assert Lower(s)[i..i + |needle|] == needle;
    IncludesAt(Lower(s), needle, i);
  }

  /** Words joined by single spaces. */
  function JoinWords(ws: seq<string>): string {
    if |ws| <= 1 then (if ws == [] then "" else ws[0]) else ws[0] + " " + JoinWords(ws[1..])
  }

  /** Lower-casing two texts joined by a space lower-cases each and keeps the space. */
  lemma SpaceSeparatedLower(a: string, b: string)
    ensures Lower(a + " " + b) == Lower(a) + [' '] + Lower(b)
  {
    LowerAppend(a + " ", b);
    LowerAppend(a, " ");
    assert Lower(" ") == " ";
  }

  /**
   * A needle without a space is absent from the lower-cased joined words when each
   * word lacks, in both cases, some letter of the needle.
   */
  lemma {:induction false} NotIncludedInLowerWords(ws: seq<string>, needle: string, missing: seq<char>)
    requires ws != [] && |missing| == |ws| && ' ' !in needle
    requires forall k :: 0 <= k < |ws| ==>
               'a' <= missing[k] <= 'z' && missing[k] in needle && missing[k] !in ws[k] && UpperChar(missing[k]) !in ws[k]
    ensures !Includes(Lower(JoinWords(ws)), needle)
  {
    LetterAbsentAfterLower(ws[0], missing[0]);
    MissingCharNotIncluded(Lower(ws[0]), needle, missing[0]);
    if |ws| > 1 {
      NotIncludedInLowerWords(ws[1..], needle, missing[1..]);
      SpaceSeparatedLower(ws[0], JoinWords(ws[1..]));
      IncludesAcrossSeparator(Lower(ws[0]), ' ', Lower(JoinWords(ws[1..])), needle);
    }
  }

  /** A needle found in one lower-cased word is found in the lower-cased joined words. */
  lemma {:induction false} IncludedInLowerWords(ws: seq<string>, k: nat, needle: string)
    requires k < |ws| && Includes(Lower(ws[k]), needle)
    ensures Includes(Lower(JoinWords(ws)), needle)
  {
    if |ws| > 1 {
      SpaceSeparatedLower(ws[0], JoinWords(ws[1..]));
      IncludesAcrossSeparator(Lower(ws[0]), ' ', Lower(JoinWords(ws[1..])), needle);
      if k > 0 {
        IncludedInLowerWords(ws[1..], k - 1, needle);
      }
    }
  }
}
