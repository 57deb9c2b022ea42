/**
 * Title cleanup of the China Daily adapter (`processtitle`): every occurrence
 * of the site-name suffix is removed, scanning left to right without overlaps,
 * as Python's `str.replace(suffix, '')` does.
 */
module Titles {

  /** The 20-character site name that article titles carry. */
  const Suffix: string := " - Chinadaily.com.cn"

  /** The suffix text starts at position `i` of `s`. */
  predicate OccursAt(s: string, i: int) {
    0 <= i && i + |Suffix| <= |s| && s[i..i + |Suffix|] == Suffix
  }

  /** The suffix text occurs somewhere in `s`. */
  predicate Occurs(s: string) {
    exists i :: 0 <= i <= |s| - |Suffix| && OccursAt(s, i)
  }

  /** `title` with every occurrence of the suffix removed. */
  function ProcessTitle(title: string): (r: string)
    ensures |r| <= |title|
    decreases |title|
  {
    if |title| < |Suffix| then title
    else if title[..|Suffix|] == Suffix then ProcessTitle(title[|Suffix|..])
    else [title[0]] + ProcessTitle(title[1..])
  }

  /** Cleanup shortens a title by whole copies of the 20-character suffix. */
  lemma {:induction false} RemovesWholeSuffixes(title: string)
    ensures (|title| - |ProcessTitle(title)|) % |Suffix| == 0
    decreases |title|
  {
    if |title| >= |Suffix| {
      if title[..|Suffix|] == Suffix {
        RemovesWholeSuffixes(title[|Suffix|..]);
      } else {
        RemovesWholeSuffixes(title[1..]);
      }
    }
  }

  /** An occurrence in the tail of `s` is an occurrence in `s`, one place further on. */
  lemma OccursInTail(s: string, i: int)
    requires |s| > 0 && OccursAt(s[1..], i)
    ensures OccursAt(s, i + 1)
  {
    assert s[1..][i..i + |Suffix|] == s[i + 1..i + 1 + |Suffix|];
  }

  /** An occurrence past the first position of `s` is an occurrence in its tail. */
  lemma OccursInTailConverse(s: string, i: int)
    requires OccursAt(s, i) && i > 0
    ensures OccursAt(s[1..], i - 1)
  {
    assert s[1..][i - 1..i - 1 + |Suffix|] == s[i..i + |Suffix|];
  }

  /** No proper prefix of the suffix is also a proper suffix of it. */
  lemma SuffixHasNoBorder(j: int)
    requires 0 < j < |Suffix|
    ensures Suffix[j..] != Suffix[..|Suffix| - j]
  {
    if j == 2 {
      assert Suffix[j..][1] == 'C' && Suffix[..|Suffix| - j][1] == '-';
    } else {
      assert Suffix[j..][0] != ' ';
    }
  }

  /**
   * Cleanup changes a title exactly when the suffix occurs in it, and then
   * it makes the title strictly shorter.
   */
  lemma {:induction false} UnchangedIffNoOccurrence(title: string)
    ensures !Occurs(title) ==> ProcessTitle(title) == title
    ensures Occurs(title) ==> |ProcessTitle(title)| < |title|
    decreases |title|
  {
    if |title| < |Suffix| {
      // Too short to hold the suffix: nothing occurs and nothing is removed.
    } else if title[..|Suffix|] == Suffix {
      assert OccursAt(title, 0);
    } else {
      var tail := title[1..];
      UnchangedIffNoOccurrence(tail);
      if Occurs(title) {
        var i :| OccursAt(title, i);
        assert i != 0;
        OccursInTailConverse(title, i);
      } else {
        if Occurs(tail) {
          var i :| OccursAt(tail, i);
          OccursInTail(title, i);
        }
        assert title == [title[0]] + tail;
      }
    }
  }

  /** A non-empty part with no occurrence, followed by the suffix, does not start with the suffix. */
  lemma CleanPrefixDoesNotStartSuffix(t: string, u: string)
    requires t != [] && !Occurs(t)
    ensures (t + Suffix + u)[..|Suffix|] != Suffix
  {
    var s := t + Suffix + u;
    if s[..|Suffix|] == Suffix {
      if |t| >= |Suffix| {
        assert t[0..|Suffix|] == s[..|Suffix|];
        assert OccursAt(t, 0);
      } else {
        var j := |t|;
        assert s[j..|Suffix|] == Suffix[..|Suffix| - j];
        assert s[j..|Suffix|] == Suffix[j..];
        SuffixHasNoBorder(j);
      }
      assert false;
    }
  }

  /** The tail of a part with no occurrence has no occurrence either. */
  lemma CleanTail(t: string)
    requires t != [] && !Occurs(t)
    ensures !Occurs(t[1..])
  {
    if Occurs(t[1..]) {
      var i :| 0 <= i <= |t[1..]| - |Suffix| && OccursAt(t[1..], i);
      OccursInTail(t, i);
    }
  }

  /**
   * Scanning a title whose first part `t` holds no occurrence keeps `t` and
   * removes the suffix text that follows it, then goes on with the rest.
   */
  lemma {:induction false} StripsSuffixAfterCleanPrefix(t: string, u: string)
    requires !Occurs(t)
    ensures ProcessTitle(t + Suffix + u) == t + ProcessTitle(u)
    decreases |t|
  {
    var s := t + Suffix + u;
    if t == [] {
      assert ProcessTitle(s) == ProcessTitle(u) by {
        assert s[..|Suffix|] == Suffix;
        assert s[|Suffix|..] == u;
      }
    } else {
      assert ProcessTitle(s) == [t[0]] + ProcessTitle(t[1..] + Suffix + u) by {
        CleanPrefixDoesNotStartSuffix(t, u);
        assert s[1..] == t[1..] + Suffix + u;
      }
      CleanTail(t);
      StripsSuffixAfterCleanPrefix(t[1..], u);
      assert t == [t[0]] + t[1..];
    }
  }

  /** A clean title followed by the site name is cleaned back to the title. */
  lemma StripsAppendedSuffix(t: string)
    requires !Occurs(t)
    ensures ProcessTitle(t + Suffix) == t
  {
    StripsSuffixAfterCleanPrefix(t, []);
    assert t + Suffix + [] == t + Suffix;
  }

  /**
   * Cleanup is not idempotent: removing one occurrence can bring two halves
   * of another together.
   */
  lemma NotIdempotent()
    ensures ProcessTitle(" - China" + Suffix + "daily.com.cn") == Suffix
    ensures ProcessTitle(Suffix) == ""
  {
    StripsSuffixAfterCleanPrefix(" - China", "daily.com.cn");
    assert " - China" + "daily.com.cn" == Suffix;
    StripsSuffixAfterCleanPrefix("", "");
    assert "" + Suffix + "" == Suffix;
  }
}
