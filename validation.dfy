/**
 * The part of Laravel's validator that the search requests rely on: the
 * rules `required`, `string` and `min:n`, the custom-message lookup, and
 * the rule that an attribute stops being checked once `required` fails.
 */
module Validation {

  /** An input attribute as the validator receives it. */
  datatype Input =
    | Absent              // the key is not in the request
    | Null                // the key is present with a null value
    | Text(s: string)     // a string
    | Items(count: nat)   // an array (`name[]=...`), with its number of elements

  datatype Rule = Required | IsString | Min(n: nat)

  /** An error message: a text from the request's own `messages()`, or the framework's default for the rule. */
  datatype Message = Custom(text: string) | Default(attribute: string, rule: Rule)

  /** The rule's name as it appears in a message key such as `name.min`. */
  function RuleName(rule: Rule): string
  {
    match rule
    case Required => "required"
    case IsString => "string"
    case Min(_) => "min"
  }

  /** The characters PHP's `trim` removes by default: space, tab, newline, carriage return, NUL, vertical tab. */
  predicate Trimmed(c: char)
  {
    c == ' ' || c == '\t' || c == '\n' || c == '\r' || c as int == 0 || c as int == 11
  }

  /** `trim($s) === ''`. */
  predicate Blank(s: string)
  {
    forall i :: 0 <= i < |s| ==> Trimmed(s[i])
  }

  /** The value the validator sees for `attribute`. */
  function InputOf(input: map<string, Input>, attribute: string): Input
  {
    if attribute in input then input[attribute] else Absent
  }

  /** Whether `rule` holds for `v`: `required` rejects null, blank strings and empty arrays; `min` measures length or count. */
  predicate Passes(rule: Rule, v: Input)
  {
    match rule
    case Required =>
      (match v
       case Absent => false
       case Null => false
       case Text(s) => !Blank(s)
       case Items(c) => c > 0)
    case IsString => v.Text?
    case Min(n) =>
      (match v
       case Text(s) => |s| >= n
       case Items(c) => c >= n
       case _ => 0 >= n)
  }

  /** Only `required` is checked on an absent value or a blank string; every other rule is skipped there. */
  predicate Checked(rule: Rule, v: Input)
  {
    rule.Required? || !(v.Absent? || (v.Text? && Blank(v.s)))
  }

  /** The rules of one attribute that fail, in order; a failed `required` ends the list. */
  function Failures(rules: seq<Rule>, v: Input): (r: seq<Rule>)
    ensures forall i :: 0 <= i < |r| ==> r[i] in rules && Checked(r[i], v) && !Passes(r[i], v)
  {
    if rules == [] then []
    else if !Checked(rules[0], v) || Passes(rules[0], v) then Failures(rules[1..], v)
    else if rules[0].Required? then [rules[0]]
    else [rules[0]] + Failures(rules[1..], v)
  }

  /** The message for a failed rule: `messages[attribute.rule]` when the request defines it. */
  function MessageFor(attribute: string, rule: Rule, messages: map<string, string>): Message
  {
    var key := attribute + "." + RuleName(rule);
    if key in messages then Custom(messages[key]) else Default(attribute, rule)
  }

  /** The error bag: for every attribute with rules that fail, the messages of those failures. */
  function Errors(rules: map<string, seq<Rule>>, messages: map<string, string>, input: map<string, Input>): (r: map<string, seq<Message>>)
    ensures r.Keys <= rules.Keys
  {
    map a | a in rules && Failures(rules[a], InputOf(input, a)) != [] ::
      var f := Failures(rules[a], InputOf(input, a));
      seq(|f|, i requires 0 <= i < |f| => MessageFor(a, f[i], messages))
  }

  /** Inputs for attributes without rules never affect the outcome. */
  lemma UnruledInputIgnored(rules: map<string, seq<Rule>>, messages: map<string, string>,
                            input: map<string, Input>, attribute: string, v: Input)
    requires attribute !in rules
    ensures Errors(rules, messages, input[attribute := v]) == Errors(rules, messages, input)
  {
    forall a | a in rules
      ensures InputOf(input[attribute := v], a) == InputOf(input, a)
    {
    }
  }

  /**
   * `['required', 'string', 'min:n']` on one value: null and blank fail
   * `required` alone; a short string fails `min`; an array fails `string`
   * and, when it is short, `min`.
   */
  lemma RequiredStringMin(n: nat, v: Input)
    ensures Failures([Required, IsString, Min(n)], v) ==
      match v
      case Absent => [Required]
      case Null => [Required]
      case Text(s) => if Blank(s) then [Required] else if |s| < n then [Min(n)] else []
      case Items(c) => if c == 0 then [Required] else [IsString] + (if c < n then [Min(n)] else [])
  {
    var rules := [Required, IsString, Min(n)];
    assert rules[1..] == [IsString, Min(n)] && rules[1..][1..] == [Min(n)] && rules[1..][1..][1..] == [];
    var last := if Checked(Min(n), v) && !Passes(Min(n), v) then [Min(n)] else [];
    assert Failures([Min(n)], v) == last;
    var tail := if Checked(IsString, v) && !Passes(IsString, v) then [IsString] + last else last;
    assert Failures([IsString, Min(n)], v) == tail;
  }

  /** Such a value passes exactly when it is a non-blank string of at least `n` characters. */
  lemma RequiredStringMinPasses(n: nat, v: Input)
    ensures Failures([Required, IsString, Min(n)], v) == [] <==> v.Text? && !Blank(v.s) && |v.s| >= n
  {
    RequiredStringMin(n, v);
  }
}
