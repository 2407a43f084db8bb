/**
 * `ssappendf` and `ssprintf`: `snprintf` onto a `std::string`.
 *
 * The string is a buffer of `capacity() + 1` characters whose first `size()`
 * characters are the contents and whose character at `size()` is the
 * terminating NUL. `ssappendf` grows the string to its capacity, lets
 * `snprintf` write into the spare room, shrinks or grows the string to the
 * length `snprintf` reports, and writes a second time when the first write was
 * cut short.
 *
 * What the format string and its arguments produce is a parameter: `Some(text)`
 * for the characters `snprintf` would print, `None` for an encoding error.
 */
module Ssprintf {
  import opened Wrappers

  const Nul: char := '\0'

  function Min(a: nat, b: nat): nat
  {
    if a <= b then a else b
  }

  function Max(a: nat, b: nat): nat
  {
    if a <= b then b else a
  }

  /** `n` copies of `c`. */
  function Repeat(c: char, n: nat): (r: seq<char>)
    ensures |r| == n && forall i :: 0 <= i < n ==> r[i] == c
  {
    if n == 0 then [] else Repeat(c, n - 1) + [c]
  }

  /** `k` copies of `text`, one after another. */
  function Copies(text: seq<char>, k: nat): (r: seq<char>)
    ensures |r| == k * |text|
  {
    if k == 0 then [] else Copies(text, k - 1) + text
  }

  /** `std::string`: a heap buffer with room for `Capacity()` characters and the
    * terminator. */
  class StdString {
    var buf: array<char>
    var size: nat

    ghost predicate Valid()
      reads this, buf
    {
      size < buf.Length && buf[size] == Nul
    }

    function Capacity(): nat
      reads this
      requires 0 < buf.Length
    {
      buf.Length - 1
    }

    function Contents(): (r: seq<char>)
      reads this, buf
      requires Valid()
      ensures |r| == size
    {
      buf[..size]
    }

    /** An empty string whose buffer has room for `capacity` characters. */
    constructor (capacity: nat)
      ensures Valid() && Contents() == [] && Capacity() == capacity
      ensures fresh(buf)
    {
      buf := new char[capacity + 1](_ => Nul);
      size := 0;
    }

    /** `resize(n)`: truncate, or extend with NUL characters; the buffer is
      * reallocated, to at least twice its old capacity, only when `n` does not
      * fit. */
    method Resize(n: nat)
      requires Valid()
      modifies this, buf
      ensures Valid() && size == n
      ensures Contents() == if n <= old(size) then old(Contents())[..n] else old(Contents()) + Repeat(Nul, n - old(size))
      ensures n <= old(Capacity()) ==> buf == old(buf)
      ensures old(Capacity()) < n ==> fresh(buf) && Capacity() == Max(n, 2 * old(Capacity()))
    {
      if n <= Capacity() {
        var i := size;
        while i < n
          invariant buf == old(buf) && size == old(size)
          invariant size <= i <= Max(size, n) && size < buf.Length && n < buf.Length
          invariant buf[..size] == old(buf[..size])
          invariant forall j :: size <= j < i ==> buf[j] == Nul
        {
          buf[i] := Nul;
          i := i + 1;
        }
        buf[n] := Nul;
        assert n <= old(size) ==> buf[..n] == old(buf[..size])[..n];
        assert n > old(size) ==> buf[..n] == old(buf[..size]) + Repeat(Nul, n - old(size));
        size := n;
      } else {
        var grown := new char[Max(n, 2 * Capacity()) + 1](_ => Nul);
        var i := 0;
        while i < size
          invariant buf == old(buf) && size == old(size)
          invariant 0 <= i <= size < buf.Length && n < grown.Length
          invariant buf[..] == old(buf[..])
          invariant forall j :: 0 <= j < i ==> grown[j] == buf[j]
          invariant forall j :: i <= j < grown.Length ==> grown[j] == Nul
        {
          grown[i] := buf[i];
          i := i + 1;
        }
        assert grown[..n] == old(buf[..size]) + Repeat(Nul, n - old(size));
        buf := grown;
        size := n;
      }
    }

    /** `std::fill` of the contents, as the range-for over `s` in the growth test
      * does. */
    method Fill(c: char)
      requires Valid()
      modifies buf
      ensures Valid() && Contents() == Repeat(c, size)
    {
      var i := 0;
      while i < size
        invariant 0 <= i <= size
        invariant buf[size] == Nul
        invariant forall j :: 0 <= j < i ==> buf[j] == c
      {
        buf[i] := c;
        i := i + 1;
      }
      assert buf[..size] == Repeat(c, size);
    }

    /** `snprintf(&data()[offset], n, …)` as section 7.21.6.5 of C11 describes it:
      * with `n > 0`, the first `min(|text|, n - 1)` characters are written,
      * followed by a NUL; nothing is written with `n == 0`; the result is the
      * full length of the text, or negative on an encoding error. The write must
      * stay within the contents and the terminator slot, and the terminator it
      * may overwrite is replaced by NUL, so the string stays well formed. */
    method Snprintf(offset: nat, n: nat, text: Option<seq<char>>) returns (r: int)
      requires Valid() && offset + n <= size + 1
      modifies buf
      ensures Valid()
      ensures r == if text.None? then -1 else |text.value|
      ensures text.None? || n == 0 ==> buf[..] == old(buf[..])
      ensures text.Some? && n > 0 ==>
                var k := Min(|text.value|, n - 1);
                buf[..] == old(buf[..offset]) + text.value[..k] + [Nul] + old(buf[offset + k + 1..])
    {
      r := -1;
      if text.Some? {
        var t := text.value;
        r := |t|;
        if n > 0 {
          var k := Min(|t|, n - 1);
          CopyText(offset, t, k);
          ghost var copied := buf[..];
          buf[offset + k] := Nul;
          TerminatedCopy(old(buf[..]), copied, buf[..], offset, t, k);
        }
      }
    }

    /** The characters `snprintf` copies: the first `k` of the text, from `offset` on. */
    method CopyText(offset: nat, t: seq<char>, k: nat)
      requires k <= |t| && offset + k < buf.Length
      modifies buf
      ensures buf[..] == old(buf[..offset]) + t[..k] + old(buf[offset + k..])
    {
      ghost var want := old(buf[..offset]) + t[..k] + old(buf[offset + k..]);
      var i := 0;
      while i < k
        invariant 0 <= i <= k
        invariant forall j :: 0 <= j < offset + i ==> buf[j] == want[j]
        invariant forall j :: offset + i <= j < buf.Length ==> buf[j] == old(buf[j])
      {
        buf[offset + i] := t[i];
        i := i + 1;
      }
      assert buf[..] == want;
    }

    /** `ssappendf(s, fmt, …)`. `false` is the `panic` on an encoding error;
      * otherwise the contents are the old contents followed by exactly the
      * formatted text, and the size is the old size plus its length. */
    method Ssappendf(text: Option<seq<char>>) returns (ok: bool)
      requires Valid()
      modifies this, buf
      ensures Valid() && (buf == old(buf) || fresh(buf))
      ensures ok <==> text.Some?
      ensures ok ==> Contents() == old(Contents()) + text.value && size == old(size) + |text.value|
    {
      ghost var before := Contents();
      var sizeBefore, printCapacity, charsToPrint := PrintIntoSpare(text);
      if charsToPrint < 0 {
        ok := false;
      } else {
        FitToPrinted(sizeBefore, printCapacity, text.value, before);
        ok := true;
      }
    }

    /** The first half of `ssappendf`: resize to the capacity and let `snprintf`
      * write into the spare room after the old contents. The old contents stay,
      * and the text follows them in full when it fits. */
    method PrintIntoSpare(text: Option<seq<char>>) returns (sizeBefore: nat, printCapacity: nat, charsToPrint: int)
      requires Valid()
      modifies this, buf
      ensures Valid() && buf == old(buf)
      ensures sizeBefore == old(size) && size == sizeBefore + printCapacity
      ensures charsToPrint == if text.None? then -1 else |text.value|
      ensures Contents()[..sizeBefore] == old(Contents())
      ensures text.Some? && |text.value| <= printCapacity ==>
                Contents()[..sizeBefore + |text.value|] == old(Contents()) + text.value
    {
      sizeBefore := size;
      ghost var before := Contents();
      Resize(Capacity());
      printCapacity := size - sizeBefore;
      ghost var grown := buf[..];
      assert grown[..size] == before + Repeat(Nul, printCapacity);
      charsToPrint := Snprintf(sizeBefore, printCapacity + 1, text);
      if text.None? {
        assert buf[..] == grown;
        assert Contents()[..sizeBefore] == grown[..size][..sizeBefore];
      } else {
        FirstWrite(before, grown, buf[..], sizeBefore, printCapacity, text.value);
      }
    }

    /** The second half of `ssappendf`: resize to the length `snprintf` reported
      * and, when the first write was cut short, write the whole text again. */
    method FitToPrinted(sizeBefore: nat, printCapacity: nat, t: seq<char>, ghost before: seq<char>)
      requires Valid() && size == sizeBefore + printCapacity && |before| == sizeBefore
      requires Contents()[..sizeBefore] == before
      requires |t| <= printCapacity ==> Contents()[..sizeBefore + |t|] == before + t
      modifies this, buf
      ensures Valid() && (buf == old(buf) || fresh(buf))
      ensures Contents() == before + t
    {
      ghost var first := Contents();
      Resize(sizeBefore + |t|);
      if |t| > printCapacity {
        PrefixOfAppend(first, Repeat(Nul, sizeBefore + |t| - |first|), sizeBefore);
        Rewrite(sizeBefore, t, before);
      }
    }

    /** The second `snprintf` of `ssappendf`, into a string already resized to
      * the old contents and the length of the text. */
    method Rewrite(sizeBefore: nat, t: seq<char>, ghost before: seq<char>)
      requires Valid() && size == sizeBefore + |t| && |before| == sizeBefore
      requires Contents()[..sizeBefore] == before
      modifies buf
      ensures Valid() && Contents() == before + t
    {
      ghost var widened := buf[..];
      assert widened[..sizeBefore] == before by {
        assert widened[..sizeBefore] == Contents()[..sizeBefore];
      }
      var _ := Snprintf(sizeBefore, |t| + 1, Some(t));
      SecondWrite(before, widened, buf[..], sizeBefore, t);
    }
  }

  /** After the first write, the contents are the old contents followed by as
    * much of the text as fits in the spare capacity, and the whole text when
    * it fits. */
  lemma FirstWrite(before: seq<char>, grown: seq<char>, written: seq<char>, sizeBefore: nat, printCapacity: nat, t: seq<char>)
    requires |before| == sizeBefore && |grown| == sizeBefore + printCapacity + 1
    requires grown[..sizeBefore + printCapacity] == before + Repeat(Nul, printCapacity)
    requires var k := Min(|t|, printCapacity);
             written == grown[..sizeBefore] + t[..k] + [Nul] + grown[sizeBefore + k + 1..]
    ensures written[..sizeBefore + printCapacity][..sizeBefore] == before
    ensures |t| <= printCapacity ==> written[..sizeBefore + printCapacity][..sizeBefore + |t|] == before + t
  {
    var k := Min(|t|, printCapacity);
    assert grown[..sizeBefore] == before by {
      assert grown[..sizeBefore] == grown[..sizeBefore + printCapacity][..sizeBefore];
    }
    assert written[..sizeBefore + k] == (grown[..sizeBefore] + t[..k] + [Nul] + grown[sizeBefore + k + 1..])[..sizeBefore + k];
    assert written[..sizeBefore + printCapacity][..sizeBefore] == written[..sizeBefore + k][..sizeBefore];
    if |t| <= printCapacity {
      assert t[..k] == t;
    }
  }

  /** The buffer after the copy and the terminator that follows it. */
  lemma TerminatedCopy(start: seq<char>, copied: seq<char>, written: seq<char>, offset: nat, t: seq<char>, k: nat)
    requires k <= |t| && offset + k < |start|
    requires copied == start[..offset] + t[..k] + start[offset + k..]
    requires written == copied[offset + k := Nul]
    ensures written == start[..offset] + t[..k] + [Nul] + start[offset + k + 1..]
  {
    assert written == written[..offset + k] + [written[offset + k]] + written[offset + k + 1..];
    assert written[..offset + k] == copied[..offset + k] == start[..offset] + t[..k];
    assert written[offset + k + 1..] == copied[offset + k + 1..] == start[offset + k + 1..];
  }

  lemma PrefixOfAppend(a: seq<char>, b: seq<char>, k: nat)
    requires k <= |a|
    ensures (a + b)[..k] == a[..k]
  {
  }

  /** After the second write, the contents are the old contents and the whole text. */
  lemma SecondWrite(before: seq<char>, widened: seq<char>, written: seq<char>, sizeBefore: nat, t: seq<char>)
    requires sizeBefore + |t| < |widened| && widened[..sizeBefore] == before
    requires written == widened[..sizeBefore] + t[..Min(|t|, |t| + 1 - 1)] + [Nul] + widened[sizeBefore + Min(|t|, |t| + 1 - 1) + 1..]
    ensures written[..sizeBefore + |t|] == before + t
  {
    assert Min(|t|, |t| + 1 - 1) == |t| && t[..|t|] == t;
    assert written[..sizeBefore + |t|] == (widened[..sizeBefore] + t + [Nul] + widened[sizeBefore + |t| + 1..])[..sizeBefore + |t|];
  }

  /** `ssprintf(fmt, …)`: `ssappendf` onto a new empty string, whose initial
    * capacity is the library's. */
  method Ssprintf(initialCapacity: nat, text: Option<seq<char>>) returns (s: StdString, ok: bool)
    ensures fresh(s) && s.Valid()
    ensures ok <==> text.Some?
    ensures ok ==> s.Contents() == text.value
  {
    s := new StdString(initialCapacity);
    ok := s.Ssappendf(text);
  }

  /** `k` calls of `ssappendf(s, "%d", 42)` in a row append `k` copies of "42". */
  method AppendCopies(s: StdString, text: seq<char>, k: nat)
    requires s.Valid()
    modifies s, s.buf
    ensures s.Valid() && s.Contents() == old(s.Contents()) + Copies(text, k)
    ensures s.buf == old(s.buf) || fresh(s.buf)
  {
    var i := 0;
    while i < k
      invariant 0 <= i <= k
      invariant s.Valid() && s.Contents() == old(s.Contents()) + Copies(text, i)
      invariant s.buf == old(s.buf) || fresh(s.buf)
    {
      var ok := s.Ssappendf(Some(text));
      i := i + 1;
    }
  }

  /** The first two checks of the test: `ssappendf(s, "hello %d", 42)` onto ""
    * and onto "abc ". */
  method AppendTest(initialCapacity: nat) returns (first: seq<char>, second: seq<char>)
    ensures first == "hello 42" && second == "abc hello 42"
  {
    var s := new StdString(initialCapacity);
    var _ := s.Ssappendf(Some("hello 42"));
    first := s.Contents();
    var a := new StdString(initialCapacity);
    var _ := a.Ssappendf(Some("abc "));
    var _ := a.Ssappendf(Some("hello 42"));
    second := a.Contents();
  }

  /** The growth test: half the capacity in spaces, then as many "42"s as the
    * capacity has room left for; the result is the spaces and the copies and
    * nothing else, however often the buffer had to grow. */
  method GrowthTest(initialCapacity: nat) returns (spaces: nat, copies: nat, result: seq<char>)
    ensures result == Repeat(' ', spaces) + Copies("42", copies)
    ensures spaces == initialCapacity / 2 && copies == initialCapacity - initialCapacity / 2
  {
    var s := new StdString(initialCapacity);
    spaces := s.Capacity() / 2;
    s.Resize(spaces);
    s.Fill(' ');
    copies := s.Capacity() - s.size;
    AppendCopies(s, "42", copies);
    result := s.Contents();
  }
}
