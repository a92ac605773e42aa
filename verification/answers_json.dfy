/**
 * The `quiz_answers` cookie: `JSON.stringify(userAnswers)` of an array whose
 * entries are option letters or `null`, and the part of `JSON.parse` that
 * reads such text back.
 */
module AnswersJson {
  import opened Options
  import opened Quiz

  /** The JSON text of one entry: `"A"` or `null`. */
  function Token(a: Answer): (t: string)
    ensures 3 <= |t| <= 4 && ';' !in t && ',' !in t
  {
    match a
    case None => "null"
    case Some(c) => ['"', c, '"']
  }

  /** The entries' JSON texts separated by commas. */
  function Elements(answers: seq<Answer>): (e: string)
    ensures ';' !in e
    ensures e == "" <==> answers == []
  {
    if |answers| == 0 then ""
    else if |answers| == 1 then Token(answers[0])
    else Token(answers[0]) + "," + Elements(answers[1..])
  }

  /** `JSON.stringify(userAnswers)`: never empty, and free of `;`, so it fits in one cookie value. */
  function Stringify(answers: seq<Answer>): (s: string)
    ensures s != "" && ';' !in s
  {
    "[" + Elements(answers) + "]"
  }

  /** The entry at the head of `s` and its length, if `s` starts with one. */
  function HeadToken(s: string): (r: Option<(Answer, nat)>)
    ensures r.Some? ==> 0 < r.value.1 <= |s|
  {
    if |s| >= 4 && s[..4] == "null" then Some((None, 4))
    else if |s| >= 3 && s[0] == '"' && 'A' <= s[1] <= 'E' && s[2] == '"' then Some((Some(s[1]), 3))
    else None
  }

  /** A non-empty comma-separated list of entries. */
  function ParseList(body: string): Option<seq<Answer>>
    decreases |body|
  {
    match HeadToken(body)
    case None => None
    case Some((a, n)) =>
      if n == |body| then Some([a])
      else if body[n] != ',' then None
      else match ParseList(body[n + 1..])
        case None => None
        case Some(rest) => Some([a] + rest)
  }

  /**
   * `JSON.parse` of a saved answer array, for the text `JSON.stringify`
   * writes; `None` stands for the exception `JSON.parse` throws.
   */
  function ParseAnswers(s: string): Option<seq<Answer>>
  {
    if |s| >= 2 && s[0] == '[' && s[|s| - 1] == ']' then
      var body := s[1..|s| - 1];
      if body == "" then Some([]) else ParseList(body)
    else None
  }

  lemma HeadOfToken(a: Answer, rest: string)
    ensures HeadToken(Token(a) + rest) == Some((a, |Token(a)|))
  {
    var s := Token(a) + rest;
    if a.Some? {
      assert s[0] == '"' != 'n';
      assert s[1] == a.value && s[2] == '"';
    } else {
      assert s[..4] == "null";
    }
  }

  lemma {:induction false} ParseListOfElements(answers: seq<Answer>)
    requires answers != []
    ensures ParseList(Elements(answers)) == Some(answers)
  {
    var t := Token(answers[0]);
    if |answers| == 1 {
      HeadOfToken(answers[0], "");
      assert t + "" == t;
      assert Elements(answers) == t;
      assert HeadToken(t) == Some((answers[0], |t|));
      assert answers == [answers[0]];
    } else {
      var rest := Elements(answers[1..]);
      var body := t + "," + rest;
      HeadOfToken(answers[0], "," + rest);
      assert body == t + ("," + rest);
      assert body[|t|] == ',';
      assert body[|t| + 1..] == rest;
      ParseListOfElements(answers[1..]);
      assert [answers[0]] + answers[1..] == answers;
    }
  }

  /** Saved answers read back as the answers saved. */
  lemma {:induction false} ParseStringify(answers: seq<Answer>)
    ensures ParseAnswers(Stringify(answers)) == Some(answers)
  {
    var s := Stringify(answers);
    assert s[1..|s| - 1] == Elements(answers);
    if answers != [] {
      ParseListOfElements(answers);
    }
  }
}
