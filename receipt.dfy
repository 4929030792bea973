/**
 * The text clean-up of the receipt-number engine
 * (`ReceiptOCR.postprocess_text`): only digits and '/' are kept, in their
 * order. `str.isdigit` is narrowed to the ASCII and Arabic-Indic digits of
 * `Chars.IsDigit`.
 */
module ReceiptEngine {
  import opened Chars
  import opened Sorting

  /** A character the clean-up keeps. */
  predicate Keeps(c: char) { IsDigit(c) || c == '/' }

  function Postprocess(text: string): string {
    Filter(text, Keeps)
  }

  /** The result holds only digits and '/', and is never longer than the input. */
  lemma OnlyDigitsAndSlash(text: string)
    ensures forall c :: c in Postprocess(text) ==> IsDigit(c) || c == '/'
    ensures |Postprocess(text)| <= |text|
  {
    FilterPasses(text, Keeps);
  }

  /** Every digit and every '/' of the input survives, and the order is kept. */
  lemma KeepsInOrder(text: string)
    ensures IsSubsequence(Postprocess(text), text)
    ensures forall c :: c in text && Keeps(c) ==> c in Postprocess(text)
  {
    FilterSubsequence(text, Keeps);
    forall c | c in text && Keeps(c) ensures c in Postprocess(text) {
      FilterKeeps(text, Keeps, c);
    }
  }

  /** The text is returned unchanged exactly when it holds only digits and '/'. */
  lemma UnchangedIff(text: string)
    ensures Postprocess(text) == text <==> forall c :: c in text ==> Keeps(c)
  {
    FilterPasses(text, Keeps);
    if forall c :: c in text ==> Keeps(c) {
      FilterAll(text, Keeps);
    }
  }

  /** Cleaning twice is cleaning once. */
  lemma Idempotent(text: string)
    ensures Postprocess(Postprocess(text)) == Postprocess(text)
  {
    FilterPasses(text, Keeps);
    FilterAll(Postprocess(text), Keeps);
  }
}
