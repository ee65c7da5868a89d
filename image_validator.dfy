/** The mock image validator: a query containing the sentinel
    "fail_validation" is always rejected; any other query is rejected when
    the random draw falls below 0.1; an accepted image keeps its url. */
module ImageValidator {
  import opened Wrappers
  import opened Text

  /** `(is_valid, validated_url)` */
  datatype Verdict = Verdict(isValid: bool, validatedUrl: Option<string>)

  const FailSentinel := "fail_validation"

  /** `validate_image(image_url, text_context, query_context)`, where
      `drawBelowThreshold` stands for `random.random() < 0.1`. */
  function ValidateImage(imageUrl: string, textContext: string, queryContext: string,
                         drawBelowThreshold: bool): (v: Verdict)
    ensures v.validatedUrl.Some? <==> v.isValid
    ensures v.isValid ==> v.validatedUrl == Some(imageUrl)
    ensures Contains(Lower(queryContext), FailSentinel) ==> !v.isValid
    ensures !Contains(Lower(queryContext), FailSentinel) ==> (v.isValid <==> !drawBelowThreshold)
  {
    var isValid :=
      if Contains(Lower(queryContext), FailSentinel) then false
      else if drawBelowThreshold then false
      else true;
    if isValid then Verdict(true, Some(imageUrl)) else Verdict(false, None)
  }

  /** The text context is passed along but does not affect the verdict. */
  lemma ValidationIgnoresTextContext(imageUrl: string, text1: string, text2: string,
                                     queryContext: string, draw: bool)
    ensures ValidateImage(imageUrl, text1, queryContext, draw) == ValidateImage(imageUrl, text2, queryContext, draw)
  {
  }
}
