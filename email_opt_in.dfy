/** UpdateEmailOptInPreference.post: the course check and the opt-in flag it stores. */
module EmailOptIn {
  import opened Wrappers
  import opened Ascii

  /** Only a value that lower-cases to "true" opts in: "true" written in any mix of cases. */
  function ParseEmailOptIn(value: string): (r: bool)
    ensures r <==>
      |value| == 4 &&
      (value[0] == 't' || value[0] == 'T') && (value[1] == 'r' || value[1] == 'R') &&
      (value[2] == 'u' || value[2] == 'U') && (value[3] == 'e' || value[3] == 'E')
  {
    LowerIsTrue(value);
    Lower(value) == "true"
  }

  /** A string lower-cases to "true" exactly when it is "true" in some mix of cases. */
  lemma LowerIsTrue(value: string)
    ensures Lower(value) == "true" <==>
      |value| == 4 &&
      (value[0] == 't' || value[0] == 'T') && (value[1] == 'r' || value[1] == 'R') &&
      (value[2] == 'u' || value[2] == 'U') && (value[3] == 'e' || value[3] == 'E')
  {
    if |value| == 4 {
      var low := Lower(value);
      if (value[0] == 't' || value[0] == 'T') && (value[1] == 'r' || value[1] == 'R') &&
         (value[2] == 'u' || value[2] == 'U') && (value[3] == 'e' || value[3] == 'E') {
        assert low == "true";
      }
    }
  }

  lemma ParseEmailOptInExamples()
    ensures ParseEmailOptIn("True") && ParseEmailOptIn("TRUE") && ParseEmailOptIn("true")
    ensures !ParseEmailOptIn("False") && !ParseEmailOptIn("yes") && !ParseEmailOptIn("") && !ParseEmailOptIn("true ")
  {
  }

  /** The endpoint's answer: a plain-text 400, or the organisation's opt-in flag to store and 200. */
  datatype OptInResponse = CourseNotFound(message: string) | Updated(org: string, optIn: bool)

  /**
   * `org` is the organisation of the parsed course key, None when the course
   * key does not parse.
   */
  function UpdateEmailOptInPreference(courseId: string, org: Option<string>, emailOptIn: string): (r: OptInResponse)
    ensures org.None? ==> r == CourseNotFound("No course '" + courseId + "' found")
    ensures org.Some? ==> r.Updated? && r.org == org.value && (r.optIn <==> Lower(emailOptIn) == "true")
  {
    match org
    case None => CourseNotFound("No course '" + courseId + "' found")
    case Some(o) => Updated(o, ParseEmailOptIn(emailOptIn))
  }
}
