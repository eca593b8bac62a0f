/** The text a menu hands to the screen (engines/illusions/menusystem.cpp):
    16-bit character units, lines separated by carriage returns and ended by a
    NUL, assembled by MenuTextBuilder. */
module MenuText {
  const CR: bv16 := 13
  const NUL: bv16 := 0

  /** A Common::String character stored into a 16-bit unit: `char` is signed,
      so bytes from 0x80 up are sign-extended. */
  function Widen(c: bv8): (u: bv16)
    ensures u & 0xFF == c as bv16
    ensures u >> 8 == if c < 0x80 then 0 else 0xFF
  {
    if c < 0x80 then c as bv16 else c as bv16 | 0xFF00
  }

  /** The units a string contributes, one per character. */
  function Units(s: seq<bv8>): (u: seq<bv16>)
    ensures |u| == |s|
    ensures forall i :: 0 <= i < |s| ==> u[i] == Widen(s[i])
  {
    seq(|s|, i requires 0 <= i < |s| => Widen(s[i]))
  }

  /** A string that neither ends the text early nor breaks a line. */
  predicate Plain(s: seq<bv8>)
  {
    forall i :: 0 <= i < |s| ==> s[i] != 0 && s[i] != 13
  }

  /** The line breaks a reader of the text meets before its terminating NUL. */
  function CountCR(t: seq<bv16>): (n: nat)
    ensures n <= |t|
  {
    if |t| == 0 || t[0] == NUL then 0
    else (if t[0] == CR then 1 else 0) + CountCR(t[1..])
  }

  predicate NoNul(t: seq<bv16>)
  {
    forall i :: 0 <= i < |t| ==> t[i] != NUL
  }

  /** Counting runs across a NUL-free prefix into what follows it. */
  lemma {:induction false} CountCRAppend(a: seq<bv16>, b: seq<bv16>)
    requires NoNul(a)
    ensures CountCR(a + b) == CountCR(a) + CountCR(b)
  {
    if |a| > 0 {
      assert (a + b)[0] == a[0];
      assert (a + b)[1..] == a[1..] + b;
      CountCRAppend(a[1..], b);
    } else {
      assert a + b == b;
    }
  }

  lemma Regroup(a: seq<bv16>, b: seq<bv16>, c: seq<bv16>, d: seq<bv16>)
    ensures a + b + c + d == a + (b + c + d)
  {
  }

  lemma WidenPlain(c: bv8)
    requires c != 0 && c != 13
    ensures Widen(c) != NUL && Widen(c) != CR
  {
  }

  /** A plain string's units hold neither a NUL nor a line break. */
  lemma {:induction false} UnitsPlain(s: seq<bv8>)
    requires Plain(s)
    ensures NoNul(Units(s)) && CountCR(Units(s)) == 0
  {
    forall i | 0 <= i < |s|
      ensures Units(s)[i] != NUL && Units(s)[i] != CR
    {
      WidenPlain(s[i]);
    }
    if |s| > 0 {
      assert Units(s)[1..] == Units(s[1..]);
      UnitsPlain(s[1..]);
    }
  }

  /** MenuTextBuilder: a fixed buffer of units filled from the front.  The
      buffer's size is declared in menusystem.h, which is not part of this
      model; here it is the constructor's argument. */
  class MenuTextBuilder {
    const text: array<bv16>
    var pos: nat

    ghost predicate Valid()
      reads this
    {
      pos <= text.Length
    }

    /** The units written so far. */
    ghost function Contents(): seq<bv16>
      reads this, text
      requires Valid()
    {
      text[..pos]
    }

    constructor (capacity: nat)
      ensures Valid() && pos == 0 && text.Length == capacity && fresh(text)
    {
      text := new bv16[capacity];
      pos := 0;
    }

    /** appendString: copies the string's characters after what is there. */
    method AppendString(s: seq<bv8>)
      requires Valid() && pos + |s| <= text.Length
      modifies this`pos, text
      ensures Valid() && pos == old(pos) + |s|
      ensures Contents() == old(Contents()) + Units(s)
    {
      ghost var before := text[..pos];
      var i := 0;
      while i < |s|
        invariant 0 <= i <= |s| && pos == old(pos) + i && pos <= text.Length
        invariant text[..pos] == before + Units(s)[..i]
      {
        text[pos] := Widen(s[i]);
        assert Units(s)[..i + 1] == Units(s)[..i] + [Widen(s[i])];
        assert text[..pos + 1] == text[..pos] + [Widen(s[i])];
        pos := pos + 1;
        i := i + 1;
      }
      assert Units(s)[..i] == Units(s);
    }

    /** appendNewLine: one carriage return. */
    method AppendNewLine()
      requires Valid() && pos < text.Length
      modifies this`pos, text
      ensures Valid() && pos == old(pos) + 1
      ensures Contents() == old(Contents()) + [CR]
    {
      text[pos] := CR;
      assert text[..pos + 1] == text[..pos] + [CR];
      pos := pos + 1;
    }

    /** finalize: a NUL just past the contents, which stay as they were. */
    method Finalize()
      requires Valid() && pos < text.Length
      modifies text
      ensures Valid() && text[..pos + 1] == old(Contents()) + [NUL]
    {
      text[pos] := NUL;
      assert text[..pos + 1] == text[..pos] + [NUL];
    }
  }
}
