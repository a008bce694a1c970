/** SearchPeopleRequest: the search request for people, whose term is `name`. */
module SearchPeopleRequest {
  import opened Validation
  import SearchTermRequest

  const Term: string := "name"

  function Rules(): map<string, seq<Rule>>
  {
    SearchTermRequest.Rules(Term)
  }

  function Messages(): map<string, string>
  {
    SearchTermRequest.Messages(Term)
  }

  predicate Authorize()
  {
    SearchTermRequest.Authorize()
  }

  /** The error bag for a people search; only `name` can appear in it. */
  function Validate(input: map<string, Input>): (r: map<string, seq<Message>>)
    ensures r.Keys <= {"name"}
  {
    SearchTermRequest.Validate(Term, input)
  }

  /** The rules, messages and authorisation, spelled out. */
  lemma AsDeclared()
    ensures Rules() == map["name" := [Required, IsString, Min(2)]]
    ensures Messages() == map["name.required" := "The name field is required to search.",
                              "name.min" := "The name must be at least 2 characters.",
                              "page.min" := "The page number must be at least 1.",
                              "limit.min" := "The limit must be at least 1.",
                              "limit.max" := "The limit cannot exceed 100."]
    ensures Authorize()
  {
    TermTexts();
    TermKeys();
  }

  /** The term's two custom texts. */
  lemma TermTexts()
    ensures SearchTermRequest.RequiredMessage(Term) == "The name field is required to search."
    ensures SearchTermRequest.MinMessage(Term) == "The name must be at least 2 characters."
  {
    RequiredText();
    MinText();
  }

  lemma RequiredText()
    ensures SearchTermRequest.RequiredMessage(Term) == "The name field is required to search."
  {
    assert "The " + Term == "The name";
  }

  lemma MinText()
    ensures SearchTermRequest.MinMessage(Term) == "The name must be at least 2 characters."
  {
    assert "The " + Term == "The name";
  }

  /** The term's two message keys. */
  lemma TermKeys()
    ensures Term + ".required" == "name.required" && Term + ".min" == "name.min"
  {
  }

  /** A people search passes exactly when `name` is a non-blank string of two or more characters. */
  lemma Accepts(input: map<string, Input>)
    ensures Validate(input) == map[] <==>
      "name" in input && input["name"].Text? && !Blank(input["name"].s) && |input["name"].s| >= 2
  {
    SearchTermRequest.AcceptsExactly(Term, input);
  }

  /** Without `name` the request is rejected, with one error on `name`: the custom "required" text. */
  lemma MissingName(input: map<string, Input>)
    requires "name" !in input
    ensures Validate(input) == map["name" := [Custom("The name field is required to search.")]]
  {
    SearchTermRequest.MissingTerm(Term, input);
    TermTexts();
  }

  /** `name=L` is rejected with the custom "min" text; `name=Luke` passes. */
  lemma OneLetterAndLuke()
    ensures Validate(map["name" := Text("L")]) == map["name" := [Custom("The name must be at least 2 characters.")]]
    ensures Validate(map["name" := Text("Luke")]) == map[]
  {
    assert "L"[0] == 'L' && "Luke"[0] == 'L';
    TermTexts();
    SearchTermRequest.TooShort(Term, map["name" := Text("L")]);
    SearchTermRequest.AcceptsExactly(Term, map["name" := Text("Luke")]);
  }

  /** `page` and `limit` are never validated, whatever they hold. */
  lemma PageAndLimitIgnored(input: map<string, Input>, page: Input, limit: Input)
    ensures Validate(input["page" := page]["limit" := limit]) == Validate(input)
  {
    SearchTermRequest.PageAndLimitIgnored(Term, input, page, limit);
  }
}
