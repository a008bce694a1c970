/** SearchFilmRequest: the search request for films, whose term is `title`. */
module SearchFilmRequest {
  import opened Validation
  import SearchTermRequest

  const Term: string := "title"

  function Rules(): map<string, seq<Rule>>
  {
    SearchTermRequest.Rules(Term)
  }

  function Messages(): map<string, string>
  {
    SearchTermRequest.Messages(Term)
  }

  predicate Authorize()
  {
    SearchTermRequest.Authorize()
  }

  /** The error bag for a film search; only `title` can appear in it. */
  function Validate(input: map<string, Input>): (r: map<string, seq<Message>>)
    ensures r.Keys <= {"title"}
  {
    SearchTermRequest.Validate(Term, input)
  }

  /** The rules, messages and authorisation, spelled out. */
  lemma AsDeclared()
    ensures Rules() == map["title" := [Required, IsString, Min(2)]]
    ensures Messages() == map["title.required" := "The title field is required to search.",
                              "title.min" := "The title must be at least 2 characters.",
                              "page.min" := "The page number must be at least 1.",
                              "limit.min" := "The limit must be at least 1.",
                              "limit.max" := "The limit cannot exceed 100."]
    ensures Authorize()
  {
    TermTexts();
    TermKeys();
  }

  /** The term's two custom texts. */
  lemma TermTexts()
    ensures SearchTermRequest.RequiredMessage(Term) == "The title field is required to search."
    ensures SearchTermRequest.MinMessage(Term) == "The title must be at least 2 characters."
  {
    RequiredText();
    MinText();
  }

  lemma RequiredText()
    ensures SearchTermRequest.RequiredMessage(Term) == "The title field is required to search."
  {
    assert "The " + Term == "The title";
  }

  lemma MinText()
    ensures SearchTermRequest.MinMessage(Term) == "The title must be at least 2 characters."
  {
    assert "The " + Term == "The title";
  }

  /** The term's two message keys. */
  lemma TermKeys()
    ensures Term + ".required" == "title.required" && Term + ".min" == "title.min"
  {
  }

  /** A film search passes exactly when `title` is a non-blank string of two or more characters. */
  lemma Accepts(input: map<string, Input>)
    ensures Validate(input) == map[] <==>
      "title" in input && input["title"].Text? && !Blank(input["title"].s) && |input["title"].s| >= 2
  {
    SearchTermRequest.AcceptsExactly(Term, input);
  }

  /** Without `title` the request is rejected, with one error on `title`: the custom "required" text. */
  lemma MissingTitle(input: map<string, Input>)
    requires "title" !in input
    ensures Validate(input) == map["title" := [Custom("The title field is required to search.")]]
  {
    SearchTermRequest.MissingTerm(Term, input);
    TermTexts();
  }

  /** `title=L` is rejected with the custom "min" text; `title=Hope` passes. */
  lemma OneLetterAndHope()
    ensures Validate(map["title" := Text("L")]) == map["title" := [Custom("The title must be at least 2 characters.")]]
    ensures Validate(map["title" := Text("Hope")]) == map[]
  {
    assert "L"[0] == 'L' && "Hope"[0] == 'H';
    TermTexts();
    SearchTermRequest.TooShort(Term, map["title" := Text("L")]);
    SearchTermRequest.AcceptsExactly(Term, map["title" := Text("Hope")]);
  }

  /** `page` and `limit` are never validated, whatever they hold. */
  lemma PageAndLimitIgnored(input: map<string, Input>, page: Input, limit: Input)
    ensures Validate(input["page" := page]["limit" := limit]) == Validate(input)
  {
    SearchTermRequest.PageAndLimitIgnored(Term, input, page, limit);
  }
}
