/** The "personality quiz" page: a fixed, ordered list of single-choice
    questions answered one at a time, a cursor on the question shown, and a
    submission that joins every answer into the seed for the number generator. */
module PsyTestPage {
  import opened LottoTypes

  /** An answer passes the page's `!selected` test when it is set and not empty;
      the only falsy answers are "no answer" and the empty text. */
  predicate Truthy(sel: Option<string>): (b: bool)
    ensures !b <==> sel == None || sel == Some("")
  {
    sel.Some? && sel.value != ""
  }

  /** What one question adds to the quote: its answer, or the text "undefined"
      when it has none. */
  function Piece(sel: Option<string>): string {
    match sel
    case Some(v) => v
    case None => "undefined"
  }

  /** How many answers are the empty text. */
  function EmptyAnswers(answers: seq<Option<string>>): nat {
    if answers == [] then 0
    else EmptyAnswers(answers[..|answers| - 1]) + (if answers[|answers| - 1] == Some("") then 1 else 0)
  }

  /** The quote: starting from "", each question's piece appended in array
      order. Only an answer that is the empty text adds nothing, so the quote
      has at least one character for every other question. */
  function Quote(answers: seq<Option<string>>): (q: string)
    ensures |q| >= |answers| - EmptyAnswers(answers)
  {
    if answers == [] then "" else Quote(answers[..|answers| - 1]) + Piece(answers[|answers| - 1])
  }

  predicate AllAnswered(answers: seq<Option<string>>) {
    forall i :: 0 <= i < |answers| ==> answers[i].Some?
  }

  /** Joins texts front to back with no separator. */
  function Concat(parts: seq<string>): string {
    if parts == [] then "" else parts[0] + Concat(parts[1..])
  }

  /** The chosen values of a fully answered quiz, in question order. */
  function Values(answers: seq<Option<string>>): (vs: seq<string>)
    requires AllAnswered(answers)
    ensures |vs| == |answers|
    ensures forall i :: 0 <= i < |vs| ==> answers[i] == Some(vs[i])
  {
    seq(|answers|, i requires 0 <= i < |answers| => answers[i].value)
  }

  /** Appending one question appends its piece to the quote. */
  lemma QuoteSnoc(s: seq<Option<string>>, x: Option<string>)
    ensures Quote(s + [x]) == Quote(s) + Piece(x)
  {
    assert (s + [x])[..|s|] == s;
  }

  /** Where the last element of a non-empty second run sits. */
  lemma LastSplit<T>(a: seq<T>, b: seq<T>)
    requires b != []
    ensures b == b[..|b| - 1] + [b[|b| - 1]]
    ensures a + b == (a + b[..|b| - 1]) + [b[|b| - 1]]
  {
    assert b == b[..|b| - 1] + [b[|b| - 1]];
  }

  /** The quote of two runs of questions is the quote of the first followed by the second's. */
  lemma {:induction false} QuoteAppend(a: seq<Option<string>>, b: seq<Option<string>>)
    ensures Quote(a + b) == Quote(a) + Quote(b)
  {
    if b == [] {
      assert a + b == a;
    } else {
      var b', x := b[..|b| - 1], b[|b| - 1];
      LastSplit(a, b);
      QuoteSnoc(a + b', x);
      QuoteSnoc(b', x);
      QuoteAppend(a, b');
    }
  }

  /** When every question is answered, the quote is exactly the chosen values
      joined in question order: no "undefined" piece appears. */
  lemma {:induction false} QuoteOfAnswered(answers: seq<Option<string>>)
    requires AllAnswered(answers)
    ensures Quote(answers) == Concat(Values(answers))
  {
    if answers != [] {
      var rest := answers[1..];
      assert answers == [answers[0]] + rest;
      QuoteAppend([answers[0]], rest);
      assert Quote([answers[0]]) == answers[0].value by {
        assert [answers[0]][..0] == [];
      }
      assert Values(answers)[1..] == Values(rest);
      QuoteOfAnswered(rest);
    }
  }

  /** A question left unanswered contributes the text "undefined" at its place. */
  lemma QuoteWithGap(answers: seq<Option<string>>, i: int)
    requires 0 <= i < |answers| && answers[i].None?
    ensures Quote(answers) == Quote(answers[..i]) + "undefined" + Quote(answers[i + 1..])
  {
    var pre, gap, post := answers[..i], [answers[i]], answers[i + 1..];
    assert answers == (pre + gap) + post;
    QuoteAppend(pre + gap, post);
    QuoteAppend(pre, gap);
    assert Quote(gap) == "undefined" by {
      assert gap[..0] == [];
    }
  }

  /** What a click on the submit button leads to. */
  datatype SubmitOutcome = Busy | Unanswered | Requested(quote: string)

  /** The submit handler as written: the busy check returns from inside the
      `try` whose `finally` clears the loading flag, so a click during a
      request clears the flag of the request still in flight. Returns the
      outcome and the loading flag afterwards. */
  function SubmitStepAsWritten(loading: bool, answers: seq<Option<string>>): (r: (SubmitOutcome, bool))
    ensures r.0 == Busy <==> loading
    ensures loading ==> !r.1
    ensures !loading ==> r == SubmitStep(loading, answers)
  {
    if loading then (Busy, false)
    else if |answers| == 0 || !Truthy(answers[|answers| - 1]) then (Unanswered, false)
    else (Requested(Quote(answers)), true)
  }

  /** The submit handler with the busy check outside the `try`: a click during
      a request changes nothing. The flag afterwards is set exactly when a
      request is in flight. */
  function SubmitStep(loading: bool, answers: seq<Option<string>>): (r: (SubmitOutcome, bool))
    ensures r.1 <==> loading || r.0.Requested?
    ensures r.0 == Busy <==> loading
    ensures r.0.Requested? <==> !loading && |answers| > 0 && Truthy(answers[|answers| - 1])
    ensures r.0.Requested? ==> r.0.quote == Quote(answers)
  {
    if loading then (Busy, true)
    else if |answers| == 0 || !Truthy(answers[|answers| - 1]) then (Unanswered, false)
    else (Requested(Quote(answers)), true)
  }

  /** As written, three clicks on an answered last question with no answer in
      between send a second request while the first is still in flight. */
  lemma SecondRequestWhileInFlight(answers: seq<Option<string>>)
    requires |answers| > 0 && Truthy(answers[|answers| - 1])
    ensures var (o1, l1) := SubmitStepAsWritten(false, answers);
      var (o2, l2) := SubmitStepAsWritten(l1, answers);
      var (o3, _) := SubmitStepAsWritten(l2, answers);
      o1.Requested? && o2 == Busy && !l2 && o3.Requested?
  {
  }

  /** On the last question, with every earlier question answered, a request
      carries all the chosen values joined in order. */
  lemma SubmittedQuote(loading: bool, answers: seq<Option<string>>)
    requires forall i :: 0 <= i < |answers| - 1 ==> answers[i].Some?
    requires SubmitStep(loading, answers).0.Requested?
    ensures AllAnswered(answers)
    ensures SubmitStep(loading, answers).0.quote == Concat(Values(answers))
  {
    QuoteOfAnswered(answers);
  }

  /** Three questions whose answers are A, B and C, in question order, give
      the quote "ABC". */
  lemma ExampleQuote()
    ensures Quote([Some("A"), Some("B"), Some("C")]) == "ABC"
    ensures SubmitStep(false, [Some("A"), Some("B"), Some("C")]) == (Requested("ABC"), true)
  {
    var q := [Some("A"), Some("B"), Some("C")];
    QuoteOfAnswered(q);
    assert Values(q) == ["A", "B", "C"];
    assert Concat(["A", "B", "C"]) == "A" + ("B" + ("C" + "")) by {
      assert ["A", "B", "C"][1..] == ["B", "C"];
      assert ["B", "C"][1..] == ["C"];
    }
  }

  /** What a click on "previous" or "next" leads to. */
  datatype NavOutcome = Moved | Ignored | ChooseAnswer | NoButton

  /** What the forward button did: moved the cursor, or (on the last question) submitted. */
  datatype ForwardOutcome = Navigated(nav: NavOutcome) | Submitted(submit: SubmitOutcome)

  /** The quiz page state. Question `i` has id `firstId + i`; the cursor is the
      id of the question shown. */
  class PsyQuiz {
    const firstId: int
    /** The values each question offers to choose from. */
    const options: seq<seq<string>>
    /** The `selected` value of each question, in array order. */
    const answers: array<Option<string>>
    var questionId: int
    var loading: bool
    var lottoResult: Option<LottoResult>

    function LastId(): int {
      firstId + answers.Length - 1
    }

    /** The cursor is on a question, every answer is one of its question's
        options, and every question before the cursor is answered. */
    ghost predicate Valid()
      reads this, answers
    {
      && answers.Length == |options| > 0
      && firstId <= questionId <= LastId()
      && (forall i :: 0 <= i < answers.Length && answers[i].Some? ==> answers[i].value in options[i])
      && (forall i :: 0 <= i < questionId - firstId ==> answers[i].Some?)
    }

    constructor (firstId: int, options: seq<seq<string>>)
      requires |options| > 0
      ensures Valid() && fresh(answers)
      ensures this.firstId == firstId && this.options == options
      ensures questionId == firstId && !loading && lottoResult == None
      ensures forall i :: 0 <= i < answers.Length ==> answers[i].None?
    {
      this.firstId := firstId;
      this.options := options;
      answers := new Option<string>[|options|](_ => None);
      questionId := firstId;
      loading := false;
      lottoResult := None;
    }

    /** The "previous" button: absent on the first question, ignored while
        loading, otherwise one question back whatever the answers are. */
    method Prev() returns (out: NavOutcome)
      requires Valid()
      modifies this`questionId
      ensures Valid()
      ensures out == if old(questionId) == firstId then NoButton else if loading then Ignored else Moved
      ensures questionId == if out == Moved then old(questionId) - 1 else old(questionId)
    {
      if questionId == firstId {
        return NoButton;
      }
      if loading {
        return Ignored;
      }
      questionId := questionId - 1;
      out := Moved;
    }

    /** The "next" button of a question other than the last: ignored while
        loading, a request to choose an answer when the shown question has
        none, otherwise one question forward. */
    method Next() returns (out: NavOutcome)
      requires Valid() && questionId != LastId()
      modifies this`questionId
      ensures Valid()
      ensures out == if loading then Ignored
                     else if !Truthy(answers[old(questionId) - firstId]) then ChooseAnswer
                     else Moved
      ensures questionId == if out == Moved then old(questionId) + 1 else old(questionId)
    {
      if loading {
        return Ignored;
      }
      if !Truthy(answers[questionId - firstId]) {
        return ChooseAnswer;
      }
      questionId := questionId + 1;
      out := Moved;
    }

    /** The submit handler, with the busy check outside the `try`. Only the
        last question shows the submit button. */
    method SubmitForm() returns (out: SubmitOutcome)
      requires Valid() && questionId == LastId()
      modifies this`loading
      ensures Valid()
      ensures (out, loading) == SubmitStep(old(loading), answers[..])
      ensures out.Requested? ==> AllAnswered(answers[..]) && out.quote == Concat(Values(answers[..]))
    {
      if loading {
        return Busy;
      }
      loading := true;
      if !Truthy(answers[answers.Length - 1]) {
        loading := false;
        return Unanswered;
      }
      var all := answers[..];
      SubmittedQuote(false, all);
      out := Requested(Quote(all));
    }

    /** The forward button: "next" on every question but the last, where it submits instead. */
    method Forward() returns (out: ForwardOutcome)
      requires Valid()
      modifies this`questionId, this`loading
      ensures Valid()
      ensures out.Submitted? <==> old(questionId) == LastId()
      ensures out.Submitted? ==>
        questionId == old(questionId) && (out.submit, loading) == SubmitStep(old(loading), answers[..])
      ensures out.Navigated? ==>
        && loading == old(loading)
        && out.nav == (if loading then Ignored
                       else if !Truthy(answers[old(questionId) - firstId]) then ChooseAnswer
                       else Moved)
        && questionId == if out.nav == Moved then old(questionId) + 1 else old(questionId)
    {
      if questionId == LastId() {
        var s := SubmitForm();
        out := Submitted(s);
      } else {
        var n := Next();
        out := Navigated(n);
      }
    }

    /** The answer handler: sets `selected` on the question with the given id
        and on no other; the cursor stays. */
    method Answer(id: int, value: string)
      requires Valid()
      requires firstId <= id <= LastId() ==> value in options[id - firstId]
      modifies answers
      ensures Valid()
      ensures forall i :: 0 <= i < answers.Length ==>
        answers[i] == if firstId + i == id then Some(value) else old(answers[i])
    {
      for i := 0 to answers.Length
        invariant forall j :: 0 <= j < i ==>
          answers[j] == if firstId + j == id then Some(value) else old(answers[j])
        invariant forall j :: i <= j < answers.Length ==> answers[j] == old(answers[j])
      {
        if firstId + i == id {
          answers[i] := Some(value);
        }
      }
    }

    /** Removes every answer and puts the cursor back on the first question;
        the loading flag and any result stay. */
    method Reset()
      requires Valid()
      modifies this`questionId, answers
      ensures Valid()
      ensures questionId == firstId
      ensures forall i :: 0 <= i < answers.Length ==> answers[i].None?
    {
      for i := 0 to answers.Length
        invariant forall j :: 0 <= j < i ==> answers[j].None?
      {
        answers[i] := None;
      }
      questionId := firstId;
    }

    /** Applies the generator's answer to the request in flight: a result of
        type PSY on success, the previous result on failure; loading ends
        either way. Nothing discards an answer that arrives after a reset. */
    method Settle(response: Response) returns (notice: Notice)
      requires Valid()
      modifies this`loading, this`lottoResult
      ensures Valid() && !loading
      ensures notice == ResultShown <==> response.Ok?
      ensures lottoResult == if response.Ok? then Some(PsyResult(response.numbers)) else old(lottoResult)
      ensures lottoResult != old(lottoResult) ==> lottoResult.value.Type() == Psy
    {
      match response {
        case Ok(numbers) =>
          lottoResult := Some(PsyResult(numbers));
          notice := ResultShown;
        case Err =>
          notice := GenerationFailed;
      }
      loading := false;
    }
  }
}
