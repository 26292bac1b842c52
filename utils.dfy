/** `capitalize` from scripts/utils.ts: upper-case the first character of a
    string and keep the rest. Upper-casing follows the ASCII model of
    `Strings.UpperAscii`. */
module Utils {
  import opened Strings

  /** `str.charAt(0).toUpperCase() + str.slice(1)`. */
  function Capitalize(s: string): (r: string)
    ensures |r| == |s|
    ensures s != [] ==> r[0] == UpperAscii(s[0])
    ensures forall i :: 1 <= i < |s| ==> r[i] == s[i]
  {
    ToUpperCase(CharAt(s, 0)) + Slice(s, 1)
  }

  /** The empty string capitalizes to itself: both `charAt(0)` and
      `slice(1)` of "" are "". */
  lemma CapitalizeEmpty()
    ensures Capitalize("") == ""
  {
  }

  /** Only the first character can change: the tail is kept verbatim. */
  lemma CapitalizeKeepsTail(s: string)
    requires s != []
    ensures Capitalize(s)[1..] == s[1..]
    ensures Capitalize(s) == [UpperAscii(s[0])] + s[1..]
  {
  }

  /** A lower-case first letter becomes the matching upper-case letter. */
  lemma CapitalizeFirstLetter(s: string)
    requires s != [] && IsLowerAscii(s[0])
    ensures IsUpperAscii(Capitalize(s)[0])
    ensures Capitalize(s)[0] as int == s[0] as int - 32
  {
  }

  /** Capitalizing twice is the same as capitalizing once. */
  lemma CapitalizeIdempotent(s: string)
    ensures Capitalize(Capitalize(s)) == Capitalize(s)
  {
  }

  /** `capitalize` returns its argument unchanged exactly when the argument
      is empty or does not start with a lower-case letter. */
  lemma CapitalizeUnchangedIff(s: string)
    ensures Capitalize(s) == s <==> s == [] || !IsLowerAscii(s[0])
  {
  }

  /** A character that is not a letter occurs in the capitalized string
      exactly when it occurs in the original. */
  lemma CapitalizeKeepsNonLetters(s: string, c: char)
    requires !IsLowerAscii(c) && !IsUpperAscii(c)
    ensures c in Capitalize(s) <==> c in s
  {
  }

  /** The two component names used as examples: `button` and `alert`. */
  lemma CapitalizeExamples()
    ensures Capitalize("button") == "Button" && Capitalize("alert") == "Alert"
  {
  }
}
