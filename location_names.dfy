/** The location-name clean-up applied to every location before its sensors
    are fetched: the name becomes a directory segment of the output tree. */
module LocationNames {
  import opened Text

  /** The characters the clean-up takes out of a name. */
  const Stripped: set<char> := {':', ' ', ',', '-', '(', ')', '.'}

  /** The chain of `str.replace` calls of the main block, in its order:
      ':' and ' ' become '_', while ',', '-', '(', ')' and '.' are deleted. */
  function Sanitize(name: string): string {
    var s1 := Replace(name, ':', "_");
    var s2 := Replace(s1, ' ', "_");
    var s3 := Replace(s2, ',', "");
    var s4 := Replace(s3, '-', "");
    var s5 := Replace(s4, '(', "");
    var s6 := Replace(s5, ')', "");
    Replace(s6, '.', "")
  }

  /** What the clean-up does to one character. */
  function CleanChar(c: char): (r: string)
    ensures |r| <= 1
    ensures c !in Stripped ==> r == [c]
  {
    if c == ':' || c == ' ' then "_"
    else if c in {',', '-', '(', ')', '.'} then ""
    else [c]
  }

  /** The clean-up stated character by character, independently of the
      order of the replace calls. */
  function CleanEach(s: string): (r: string)
    ensures |r| <= |s|
    ensures forall i :: 0 <= i < |r| ==> r[i] !in Stripped
    decreases |s|
  {
    if s == [] then [] else CleanChar(s[0]) + CleanEach(s[1..])
  }

  /** The replace chain on a single character. */
  lemma SanitizeChar(c: char)
    ensures Sanitize([c]) == CleanChar(c)
  {
  }

  /** The replace chain distributes over concatenation. */
  lemma SanitizeAppend(a: string, b: string)
    ensures Sanitize(a + b) == Sanitize(a) + Sanitize(b)
  {
    ReplaceAppend(a, b, ':', "_");
    var a1, b1 := Replace(a, ':', "_"), Replace(b, ':', "_");
    ReplaceAppend(a1, b1, ' ', "_");
    var a2, b2 := Replace(a1, ' ', "_"), Replace(b1, ' ', "_");
    ReplaceAppend(a2, b2, ',', "");
    var a3, b3 := Replace(a2, ',', ""), Replace(b2, ',', "");
    ReplaceAppend(a3, b3, '-', "");
    var a4, b4 := Replace(a3, '-', ""), Replace(b3, '-', "");
    ReplaceAppend(a4, b4, '(', "");
    var a5, b5 := Replace(a4, '(', ""), Replace(b4, '(', "");
    ReplaceAppend(a5, b5, ')', "");
    var a6, b6 := Replace(a5, ')', ""), Replace(b5, ')', "");
    ReplaceAppend(a6, b6, '.', "");
  }

  /** The replace chain equals the per-character clean-up. */
  lemma {:induction false} SanitizeIsCharwise(s: string)
    ensures Sanitize(s) == CleanEach(s)
    decreases |s|
  {
    if s != [] {
      assert s == [s[0]] + s[1..];
      SanitizeAppend([s[0]], s[1..]);
      SanitizeChar(s[0]);
      SanitizeIsCharwise(s[1..]);
    }
  }

  /** The cleaned name holds none of the stripped characters and is never
      longer than the original. */
  lemma SanitizeStrips(name: string)
    ensures forall i :: 0 <= i < |Sanitize(name)| ==> Sanitize(name)[i] !in Stripped
    ensures |Sanitize(name)| <= |name|
  {
    SanitizeIsCharwise(name);
  }

  /** A name without stripped characters is left alone. */
  lemma {:induction false} CleanEachKeepsClean(s: string)
    requires forall i :: 0 <= i < |s| ==> s[i] !in Stripped
    ensures CleanEach(s) == s
    decreases |s|
  {
    if s != [] {
      CleanEachKeepsClean(s[1..]);
    }
  }

  /** The clean-up leaves a name unchanged exactly when the name holds none
      of the stripped characters. */
  lemma SanitizeFixpoint(name: string)
    ensures Sanitize(name) == name <==> forall i :: 0 <= i < |name| ==> name[i] !in Stripped
  {
    SanitizeIsCharwise(name);
    if forall i :: 0 <= i < |name| ==> name[i] !in Stripped {
      CleanEachKeepsClean(name);
    }
  }

  /** Cleaning twice is the same as cleaning once. */
  lemma SanitizeIdempotent(name: string)
    ensures Sanitize(Sanitize(name)) == Sanitize(name)
  {
    SanitizeStrips(name);
    SanitizeFixpoint(Sanitize(name));
  }
}
