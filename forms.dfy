/** BoardForm.clean_title (apps/boards/forms.py). */
module BoardForms {
  import opened Common
  import opened PyStr

  /** The shortest title the form accepts. */
  const MinTitleLength := 4

  /** What clean_title leaves behind: the form's cleaned data, whose title it
      overwrites with the stripped title before it decides, and its verdict. */
  datatype TitleCleaning = TitleCleaning(cleanedData: map<string, string>, result: Outcome<string>)

  /** clean_title: strip the title, store it back, and reject it when three
      characters or fewer remain. */
  function CleanTitle(cleanedData: map<string, string>): (r: TitleCleaning)
    requires "title" in cleanedData
    ensures r.cleanedData == cleanedData["title" := Strip(cleanedData["title"])]
    ensures r.result.Allow? <==> |Strip(cleanedData["title"])| >= MinTitleLength
    ensures r.result.Allow? ==> r.result.value == Strip(cleanedData["title"])
    ensures r.result.Allow? || r.result.Invalid?
  {
    var title := Strip(cleanedData["title"]);
    var stored := cleanedData["title" := title];
    if |title| <= 3 then TitleCleaning(stored, Invalid) else TitleCleaning(stored, Allow(title))
  }

  /** An accepted title is at least four characters long and has no
      whitespace at either end. */
  lemma AcceptedTitleShape(cleanedData: map<string, string>)
    requires "title" in cleanedData && CleanTitle(cleanedData).result.Allow?
    ensures var t := CleanTitle(cleanedData).result.value;
            |t| >= MinTitleLength && !IsSpace(t[0]) && !IsSpace(t[|t| - 1])
  {
  }

  /** Cleaning an accepted title again gives it back unchanged. */
  lemma CleanTitleIdempotent(cleanedData: map<string, string>)
    requires "title" in cleanedData && CleanTitle(cleanedData).result.Allow?
    ensures var t := CleanTitle(cleanedData).result.value;
            CleanTitle(cleanedData["title" := t]).result == Allow(t)
  {
    StripIdempotent(cleanedData["title"]);
  }

  /** A title of nothing but whitespace is rejected, and is stored as "". */
  lemma WhitespaceTitleRejected(cleanedData: map<string, string>)
    requires "title" in cleanedData && AllSpace(cleanedData["title"])
    ensures CleanTitle(cleanedData).result == Invalid
    ensures CleanTitle(cleanedData).cleanedData["title"] == ""
  {
    StripEmptyIffAllSpace(cleanedData["title"]);
  }

  /** A title with no whitespace at either end is accepted exactly when it
      has at least four characters. */
  lemma UntrimmedTitle(t: string)
    requires t == [] || (!IsSpace(t[0]) && !IsSpace(t[|t| - 1]))
    ensures CleanTitle(map["title" := t]).result == if |t| >= MinTitleLength then Allow(t) else Invalid
  {
    StripUntrimmed(t);
  }

  /** The form's own examples: "" and "ab" fail, "Test Board" passes. */
  lemma EmptyTitleRejected()
    ensures CleanTitle(map["title" := ""]).result == Invalid
  {
    UntrimmedTitle("");
  }

  lemma ShortTitleRejected()
    ensures CleanTitle(map["title" := "ab"]).result == Invalid
  {
    UntrimmedTitle("ab");
  }

  lemma SampleTitleAccepted(t: string)
    requires t == "Test Board"
    ensures CleanTitle(map["title" := t]).result == Allow(t)
  {
    assert t[0] == 'T' && t[|t| - 1] == 'd';
    UntrimmedTitle(t);
  }
}
