/**
 * `String::equalsIgnoreCase` of the Arduino compatibility layer: the two
 * strings have the same length and `std::equal` finds every pair of characters
 * equal after `tolower`. `tolower` is the one of the "C" locale, which maps
 * 'A'..'Z' to 'a'..'z' and leaves every other character alone.
 */
module Arduino {

  predicate IsUpper(c: char)
  {
    'A' <= c <= 'Z'
  }

  /** `tolower` in the "C" locale. */
  function ToLower(c: char): (l: char)
    ensures !IsUpper(l)
    ensures IsUpper(c) || l == c
  {
    if IsUpper(c) then (c as int + ('a' as int - 'A' as int)) as char else c
  }

  /** `tolower` never yields an upper-case letter, changes exactly the
    * upper-case letters, sends them to 'a'..'z' in order, and a second
    * application changes nothing. */
  lemma ToLowerFacts(c: char)
    ensures !IsUpper(ToLower(c))
    ensures ToLower(c) != c <==> IsUpper(c)
    ensures IsUpper(c) ==> 'a' <= ToLower(c) <= 'z' && ToLower(c) as int - 'a' as int == c as int - 'A' as int
    ensures ToLower(ToLower(c)) == ToLower(c)
  {
  }

  /** The lambda `std::equal` applies to each pair. */
  predicate SameLetter(a: char, b: char)
  {
    ToLower(a) == ToLower(b)
  }

  /** `std::equal(begin(), end(), s.begin(), s.end(), …)` on ranges of equal
    * length: the first pair is equal and so is the rest, walking from the front. */
  predicate EqualRange(a: seq<char>, b: seq<char>)
    requires |a| == |b|
    ensures a == b ==> EqualRange(a, b)
  {
    a == [] || (SameLetter(a[0], b[0]) && EqualRange(a[1..], b[1..]))
  }

  /** `String::equalsIgnoreCase(s)`: the size check comes first, so `std::equal`
    * only ever sees ranges of equal length. Every string equals itself. */
  predicate EqualsIgnoreCase(a: seq<char>, b: seq<char>)
    ensures a == b ==> EqualsIgnoreCase(a, b)
  {
    |a| == |b| && EqualRange(a, b)
  }

  /** The string `tolower` makes of `s`, position by position: the reference
    * the comparison is measured against. */
  function Lower(s: seq<char>): (l: seq<char>)
    ensures |l| == |s|
    ensures forall i :: 0 <= i < |s| ==> l[i] == ToLower(s[i])
  {
    if s == [] then [] else [ToLower(s[0])] + Lower(s[1..])
  }

  /** The walk finds every pair equal exactly when every position holds equal
    * lower-cased characters. */
  lemma {:induction false} EqualRangePointwise(a: seq<char>, b: seq<char>)
    requires |a| == |b|
    ensures EqualRange(a, b) <==> forall i :: 0 <= i < |a| ==> SameLetter(a[i], b[i])
    decreases |a|
  {
    if a != [] {
      EqualRangePointwise(a[1..], b[1..]);
      assert forall i :: 1 <= i < |a| ==> a[i] == a[1..][i - 1] && b[i] == b[1..][i - 1];
    }
  }

  /** Strings of different lengths are never equal, whatever their letters. */
  lemma LengthMismatch(a: seq<char>, b: seq<char>)
    requires |a| != |b|
    ensures !EqualsIgnoreCase(a, b)
  {
  }

  /** Equal-length strings compare equal exactly when every position holds the
    * same character up to case. */
  lemma EqualsIgnoreCasePointwise(a: seq<char>, b: seq<char>)
    requires |a| == |b|
    ensures EqualsIgnoreCase(a, b) <==> forall i :: 0 <= i < |a| ==> ToLower(a[i]) == ToLower(b[i])
  {
    EqualRangePointwise(a, b);
  }

  /** The comparison is the equality of the lower-cased strings. */
  lemma EqualsIgnoreCaseIsLowerEqual(a: seq<char>, b: seq<char>)
    ensures EqualsIgnoreCase(a, b) <==> Lower(a) == Lower(b)
  {
    if |a| == |b| {
      EqualRangePointwise(a, b);
      if Lower(a) == Lower(b) {
        assert forall i :: 0 <= i < |a| ==> Lower(a)[i] == Lower(b)[i];
      }
    } else {
      assert |Lower(a)| != |Lower(b)|;
    }
  }

  /** The order of the two strings does not matter. */
  lemma Symmetric(a: seq<char>, b: seq<char>)
    ensures EqualsIgnoreCase(a, b) <==> EqualsIgnoreCase(b, a)
  {
    EqualsIgnoreCaseIsLowerEqual(a, b);
    EqualsIgnoreCaseIsLowerEqual(b, a);
  }

  /** Two strings equal to a third up to case are equal to each other. */
  lemma Transitive(a: seq<char>, b: seq<char>, c: seq<char>)
    requires EqualsIgnoreCase(a, b) && EqualsIgnoreCase(b, c)
    ensures EqualsIgnoreCase(a, c)
  {
    EqualsIgnoreCaseIsLowerEqual(a, b);
    EqualsIgnoreCaseIsLowerEqual(b, c);
    EqualsIgnoreCaseIsLowerEqual(a, c);
  }

  /** Only letters are folded: a digit and a punctuation mark stay apart from
    * everything but themselves, and "ON" matches "on" but not "on ". */
  lemma Examples()
    ensures EqualsIgnoreCase("ON", "on") && EqualsIgnoreCase("Off", "oFF")
    ensures !EqualsIgnoreCase("ON", "on ")
    ensures !EqualsIgnoreCase("[", "{")
  {
    assert EqualRange("ON", "on") by {
      assert "ON"[1..] == "N" && "on"[1..] == "n";
      assert "N"[1..] == [] && "n"[1..] == [];
    }
    assert EqualRange("Off", "oFF") by {
      assert "Off"[1..] == "ff" && "oFF"[1..] == "FF";
      assert "ff"[1..] == "f" && "FF"[1..] == "F";
      assert "f"[1..] == [] && "F"[1..] == [];
    }
  }
}
