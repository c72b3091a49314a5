/** The generic form field's input handling: the character filter on
    number fields and the Yes/No caption of a toggle. */
module FormField {
  import opened Seqs
  import opened JsValues
  import opened JsStrings

  /** The characters a number field accepts: `[0-9.]`. */
  predicate IsNumberChar(c: char) {
    IsDigit(c) || c == '.'
  }

  /** `text.replace(/[^0-9.]/g, '')`: every character other than a digit or a
      dot deleted. */
  function SanitizeNumber(text: string): (r: string)
    ensures forall i :: 0 <= i < |r| ==> IsNumberChar(r[i])
    ensures forall c :: IsNumberChar(c) ==> multiset(r)[c] == multiset(text)[c]
    ensures |r| <= |text|
  {
    FilterCounts(IsNumberChar, text);
    Filter(IsNumberChar, text)
  }

  /** The surviving characters keep their original order. */
  lemma SanitizeNumberKeepsOrder(text: string)
    ensures IsSubsequence(SanitizeNumber(text), text)
  {
    FilterIsSubsequence(IsNumberChar, text);
  }

  /** A string changes under the filter exactly when it holds some other
      character; in particular the filter is idempotent. */
  lemma SanitizeNumberFixedPoints(text: string)
    ensures SanitizeNumber(text) == text <==> forall i :: 0 <= i < |text| ==> IsNumberChar(text[i])
    ensures SanitizeNumber(SanitizeNumber(text)) == SanitizeNumber(text)
  {
    FilterFixedPoint(IsNumberChar, text);
    FilterFixedPoint(IsNumberChar, SanitizeNumber(text));
  }

  /** Nothing limits the number of dots: a dot typed after any text
      survives, whatever dots came before. */
  lemma DotAlwaysKept(text: string)
    ensures SanitizeNumber(text + ".") == SanitizeNumber(text) + "."
  {
    FilterAppend(IsNumberChar, text, ".");
    assert Filter(IsNumberChar, ".") == ".";
  }

  /** The switch's position: `Boolean(value)`. */
  function SwitchOn(value: Value): bool {
    Truthy(value)
  }

  /** The caption next to a toggle: `value ? 'Yes' : 'No'`. */
  function ToggleCaption(value: Value): (r: string)
    ensures r == "Yes" || r == "No"
    ensures r == "Yes" <==> SwitchOn(value)
  {
    if Truthy(value) then "Yes" else "No"
  }

  /** JavaScript truthiness at work: `0` and `''` read as No, an empty list
      and the string "false" as Yes. */
  lemma ToggleCaptionExamples()
    ensures ToggleCaption(Num(0)) == "No" && ToggleCaption(Str("")) == "No"
    ensures ToggleCaption(Undefined) == "No" && ToggleCaption(Null) == "No"
    ensures ToggleCaption(Arr([])) == "Yes" && ToggleCaption(Str("false")) == "Yes"
  {
  }
}
