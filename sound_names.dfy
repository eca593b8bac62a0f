/** Sound entry names as the C string functions of
    engines/lastexpress/sound/entry.cpp see them: `c_str`, `strcpy` into a
    `char[16]`, `strlen`, and `matchString` with a `?` wildcard. */
module SoundNames {

  /** The characters `strcpy`, `strlen` and `matchString` see: everything
      before the first NUL. */
  function CStr(s: string): (r: string)
    ensures |r| <= |s| && r == s[..|r|]
    ensures forall i :: 0 <= i < |r| ==> r[i] != '\0'
    ensures |r| < |s| ==> s[|r|] == '\0'
  {
    if s == [] || s[0] == '\0' then [] else [s[0]] + CStr(s[1..])
  }

  predicate NoNul(s: string)
  {
    forall i :: 0 <= i < |s| ==> s[i] != '\0'
  }

  /** A name without an embedded NUL is its own C string. */
  lemma {:induction false} CStrOfNoNul(s: string)
    requires NoNul(s)
    ensures CStr(s) == s
  {
    if s != [] {
      assert NoNul(s[1..]) by {
        forall i | 0 <= i < |s[1..]| ensures s[1..][i] != '\0' { assert s[1..][i] == s[i + 1]; }
      }
      CStrOfNoNul(s[1..]);
    }
  }

  /** The name updateSound hands to showSubtitle: the C string of the name with
      its last four characters cut off, or unchanged when it has at most four. */
  function SubtitleStem(name: string): string
  {
    var c := CStr(name);
    if |c| > 4 then c[..|c| - 4] else c
  }

  /** The stem is a prefix of the C string, four characters shorter when it can be. */
  lemma SubtitleStemShape(name: string)
    ensures SubtitleStem(name) == CStr(name)[..|SubtitleStem(name)|]
    ensures |SubtitleStem(name)| == if |CStr(name)| > 4 then |CStr(name)| - 4 else |CStr(name)|
  {
  }

  /** Cutting the stem strips a four-character extension such as ".SND" and
      gives back the base name. */
  lemma StemStripsExtension(stem: string, ext: string)
    requires |stem| > 0 && |ext| == 4 && NoNul(stem) && NoNul(ext)
    ensures SubtitleStem(stem + ext) == stem
  {
    assert NoNul(stem + ext) by {
      forall i | 0 <= i < |stem + ext| ensures (stem + ext)[i] != '\0' {
        if i < |stem| { assert (stem + ext)[i] == stem[i]; } else { assert (stem + ext)[i] == ext[i - |stem|]; }
      }
    }
    CStrOfNoNul(stem + ext);
    assert (stem + ext)[..|stem|] == stem;
  }

  /** `matchString("NISSND?")` on the C string: the prefix NISSND followed by
      exactly one more character. */
  predicate MatchesNisSnd(name: string)
  {
    var c := CStr(name);
    |c| == 7 && c[..6] == "NISSND"
  }

  /** Every NISSND name with one more (non-NUL) character matches. */
  lemma NisSndMatches(c: char)
    requires c != '\0'
    ensures MatchesNisSnd("NISSND" + [c])
  {
    CStrOfNoNul("NISSND" + [c]);
  }

  /** A name without NULs matches only when it is seven characters long. */
  lemma NisSndLength(name: string)
    requires NoNul(name) && MatchesNisSnd(name)
    ensures |name| == 7 && name[..6] == "NISSND"
  {
    CStrOfNoNul(name);
  }

  /** The guard the source places before copying a name: `size() <= 16`. */
  predicate AssertAccepts(name: string)
  {
    |name| <= 16
  }

  /** Bytes `strcpy` writes into the destination: the C string and its NUL. */
  function StrcpyLength(name: string): nat
  {
    |CStr(name)| + 1
  }

  /** The stricter bound this model places on names copied into a `char[16]`. */
  predicate FitsNameBuffer(name: string)
  {
    |name| <= 15
  }

  /** As written, a sixteen-character name passes the guard and then `strcpy`
      writes seventeen bytes into the sixteen-byte buffer. */
  lemma SixteenCharNameOverflows()
    ensures AssertAccepts("NISSND0123456789")
    ensures StrcpyLength("NISSND0123456789") == 17
  {
    CStrOfNoNul("NISSND0123456789");
  }

  /** With the stricter bound the copy, terminator included, always fits. */
  lemma FitsNameBufferNoOverflow(name: string)
    requires FitsNameBuffer(name)
    ensures AssertAccepts(name) && StrcpyLength(name) <= 16
  {
  }
}
