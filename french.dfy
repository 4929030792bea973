/**
 * The text clean-up of the French engine (`FrenchOCR.postprocess_text`):
 * whitespace-only text is returned as it is; any other text has its two
 * common OCR confusions repaired ('|' read for 'I', '1' read for 'l') and is
 * then stripped. The administrative-pattern search that follows the repair
 * only writes to the log and does not affect the result.
 */
module FrenchEngine {
  import opened Chars

  /** `str.replace(a, b)` for one-character `a` and `b`: every `a` becomes `b`. */
  function ReplaceChar(s: string, a: char, b: char): (r: string)
    ensures |r| == |s|
    ensures forall i :: 0 <= i < |s| ==> r[i] == (if s[i] == a then b else s[i])
  {
    if s == [] then [] else [if s[0] == a then b else s[0]] + ReplaceChar(s[1..], a, b)
  }

  /** Replacing `a` by a different character leaves no `a`. */
  lemma ReplaceRemoves(s: string, a: char, b: char)
    requires a != b
    ensures a !in ReplaceChar(s, a, b)
  {
    var r := ReplaceChar(s, a, b);
    forall i | 0 <= i < |r| ensures r[i] != a { }
  }

  /** Replacing a character absent from the text changes nothing. */
  lemma ReplaceAbsent(s: string, a: char, b: char)
    requires a !in s
    ensures ReplaceChar(s, a, b) == s
  {
  }

  /** The two confusions repaired, in the source's order. */
  function Repair(s: string): string {
    ReplaceChar(ReplaceChar(s, '|', 'I'), '1', 'l')
  }

  function Postprocess(text: string): string {
    if Strip(text) == [] then text else Strip(Repair(text))
  }

  /** Neither repair turns whitespace into text or text into whitespace. */
  lemma RepairKeepsSpaces(s: string)
    ensures |Repair(s)| == |s|
    ensures forall i :: 0 <= i < |s| ==> (IsSpace(Repair(s)[i]) <==> IsSpace(s[i]))
    ensures '|' !in Repair(s) && '1' !in Repair(s)
  {
    var t := ReplaceChar(s, '|', 'I');
    ReplaceRemoves(s, '|', 'I');
    ReplaceRemoves(t, '1', 'l');
    assert forall i :: 0 <= i < |t| ==> Repair(s)[i] == (if t[i] == '1' then 'l' else t[i]);
  }

  /** Text that is empty or whitespace only is returned unchanged. */
  lemma BlankUnchanged(text: string)
    requires AllSpace(text)
    ensures Postprocess(text) == text
  {
    StripEmptyIff(text);
  }

  /** Every character of a stripped text comes from the text. */
  lemma StripFrom(t: string)
    ensures |Strip(t)| <= |t|
    ensures forall c :: c in Strip(t) ==> c in t
  {
    StripShape(t);
    var r := Strip(t);
    var a, b :| 0 <= a <= b <= |t| && r == t[a..b];
    forall i | 0 <= i < |r| ensures r[i] == t[a + i] { }
  }

  /** Any other text is the repaired text, stripped, and it is not blank. */
  lemma NonBlankRepaired(text: string)
    requires !AllSpace(text)
    ensures Postprocess(text) == Strip(Repair(text))
    ensures !AllSpace(Repair(text))
  {
    StripEmptyIff(text);
    var t := Repair(text);
    RepairKeepsSpaces(text);
    var i :| 0 <= i < |text| && !IsSpace(text[i]);
    assert !IsSpace(t[i]);
  }

  /**
   * Any other text: the result is the repaired text with whitespace removed on
   * both sides only.
   */
  lemma NonBlankSlice(text: string)
    requires !AllSpace(text)
    ensures exists a, b ::
              && 0 <= a <= b <= |text|
              && Postprocess(text) == Repair(text)[a..b]
              && AllSpace(Repair(text)[..a])
              && AllSpace(Repair(text)[b..])
  {
    NonBlankRepaired(text);
    RepairKeepsSpaces(text);
    StripShape(Repair(text));
  }

  /**
   * Any other text: the result has no '|' and no '1', is not empty, neither
   * starts nor ends with whitespace, and is no longer than the input.
   */
  lemma NonBlankShape(text: string)
    requires !AllSpace(text)
    ensures var r := Postprocess(text);
      && '|' !in r && '1' !in r
      && |r| > 0 && !IsSpace(r[0]) && !IsSpace(r[|r| - 1])
      && |r| <= |text|
  {
    NonBlankRepaired(text);
    var t := Repair(text);
    RepairKeepsSpaces(text);
    StripEmptyIff(t);
    StripShape(t);
    StripFrom(t);
  }

  /** Cleaning twice is cleaning once. */
  lemma Idempotent(text: string)
    ensures Postprocess(Postprocess(text)) == Postprocess(text)
  {
    if AllSpace(text) {
      BlankUnchanged(text);
    } else {
      NonBlankShape(text);
      var r := Postprocess(text);
      assert !AllSpace(r) by { assert !IsSpace(r[0]); }
      StripEmptyIff(r);
      ReplaceAbsent(r, '|', 'I');
      ReplaceAbsent(r, '1', 'l');
      StripIdempotent(Repair(text));
    }
  }
}
