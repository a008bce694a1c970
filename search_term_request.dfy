/**
 * The form request both search endpoints use, for the search term `term`
 * ("name" for people, "title" for films): the term is required, a string,
 * at least two characters; custom messages exist for the term and for
 * `page` and `limit`, which have no rules.
 */
module SearchTermRequest {
  import opened Validation

  const MinLength: nat := 2

  /** `authorize()`: every caller may search. */
  predicate Authorize()
  {
    true
  }

  /** `rules()`: only the term is validated. */
  function Rules(term: string): map<string, seq<Rule>>
  {
    map[term := [Required, IsString, Min(MinLength)]]
  }

  function RequiredMessage(term: string): string
  {
    "The " + term + " field is required to search."
  }

  function MinMessage(term: string): string
  {
    "The " + term + " must be at least 2 characters."
  }

  /** `messages()`. */
  function Messages(term: string): map<string, string>
  {
    map[term + ".required" := RequiredMessage(term),
        term + ".min" := MinMessage(term),
        "page.min" := "The page number must be at least 1.",
        "limit.min" := "The limit must be at least 1.",
        "limit.max" := "The limit cannot exceed 100."]
  }

  /** The term's own two texts are the ones `messages()` holds under `term.required` and `term.min`. */
  lemma CustomTexts(term: string)
    requires term != "page" && term != "limit"
    ensures Messages(term)[term + ".required"] == RequiredMessage(term)
    ensures Messages(term)[term + ".min"] == MinMessage(term)
    ensures MessageFor(term, Required, Messages(term)) == Custom(RequiredMessage(term))
    ensures MessageFor(term, Min(MinLength), Messages(term)) == Custom(MinMessage(term))
  {
    assert term + "." + "required" == term + ".required";
    assert term + "." + "min" == term + ".min";
    var req, min := term + ".required", term + ".min";
    assert req[|term|] == '.' && req[|req| - 1] == 'd';
    assert min[|term|] == '.' && min[|min| - 1] == 'n';
    assert req != "page.min" && req != "limit.min" && req != "limit.max";
    assert min[..|term|] == term;
    assert min != "page.min" && min != "limit.min" && min != "limit.max";
  }

  /** The error bag the validator builds for this request; empty means the controller runs. */
  function Validate(term: string, input: map<string, Input>): (r: map<string, seq<Message>>)
    ensures r.Keys <= {term}
  {
    Errors(Rules(term), Messages(term), input)
  }

  /** The request passes exactly when the term is a non-blank string of at least two characters. */
  lemma AcceptsExactly(term: string, input: map<string, Input>)
    ensures Validate(term, input) == map[] <==>
      InputOf(input, term).Text? && !Blank(InputOf(input, term).s) && |InputOf(input, term).s| >= 2
  {
    RequiredStringMinPasses(MinLength, InputOf(input, term));
    if Validate(term, input) == map[] {
      assert term !in Validate(term, input);
    }
  }

  /** A missing or null term fails with the custom "required" text alone, keyed on the term. */
  lemma MissingTerm(term: string, input: map<string, Input>)
    requires term != "page" && term != "limit"
    requires InputOf(input, term).Absent? || InputOf(input, term).Null?
    ensures Validate(term, input) == map[term := [Custom(RequiredMessage(term))]]
  {
    RequiredStringMin(MinLength, InputOf(input, term));
    CustomTexts(term);
    var e := Validate(term, input);
    assert Rules(term)[term] == [Required, IsString, Min(MinLength)];
    assert term in e && e[term] == [Custom(RequiredMessage(term))];
    assert e.Keys == {term};
  }

  /** A non-blank term shorter than two characters fails with the custom "min" text alone. */
  lemma TooShort(term: string, input: map<string, Input>)
    requires term != "page" && term != "limit"
    requires InputOf(input, term).Text? && !Blank(InputOf(input, term).s) && |InputOf(input, term).s| < 2
    ensures Validate(term, input) == map[term := [Custom(MinMessage(term))]]
  {
    RequiredStringMin(MinLength, InputOf(input, term));
    CustomTexts(term);
    var e := Validate(term, input);
    assert Rules(term)[term] == [Required, IsString, Min(MinLength)];
    assert term in e && e[term] == [Custom(MinMessage(term))];
    assert e.Keys == {term};
  }

  /** `page` and `limit` have messages but no rules: whatever they hold, the outcome is the same. */
  lemma PageAndLimitIgnored(term: string, input: map<string, Input>, page: Input, limit: Input)
    requires term != "page" && term != "limit"
    ensures Validate(term, input["page" := page]["limit" := limit]) == Validate(term, input)
  {
    UnruledInputIgnored(Rules(term), Messages(term), input, "page", page);
    UnruledInputIgnored(Rules(term), Messages(term), input["page" := page], "limit", limit);
  }
}
