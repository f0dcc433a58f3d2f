/** The question generation script: articles are taken one batch at a time
    (batches of one), each article's questions are generated and recorded,
    and generation stops before the next batch once at least 20 questions
    have been gathered. The language model is a parameter: for an article's
    content it gives the parsed list of questions, or `None` when the
    request or the parsing fails. A reply that parses to something other
    than an array of strings is not modelled. */
module QuestionCreator {
  import opened Text
  import opened EtlBatches

  const QuestionLimit := 20

  datatype Article = Article(url: string, title: string, content: string)

  datatype QuestionRecord = QuestionRecord(url: string, title: string, content: string, questions: seq<string>)

  /** The script's three accumulators. */
  datatype Progress = Progress(allQuestions: seq<QuestionRecord>, questionCount: nat, processedCount: nat)

  function BuildQuestions(a: Article, gen: string -> Option<seq<string>>): Option<QuestionRecord> {
    match gen(a.content)
    case Some(qs) => Some(QuestionRecord(a.url, a.title, a.content, qs))
    case None => None
  }

  function QuestionBuilder(gen: string -> Option<seq<string>>): Article -> Option<QuestionRecord> {
    a => BuildQuestions(a, gen)
  }

  /** The number of questions in the records. */
  function TotalQuestions(rs: seq<QuestionRecord>): nat {
    if rs == [] then 0 else TotalQuestions(rs[..|rs| - 1]) + |rs[|rs| - 1].questions|
  }

  lemma {:induction false} TotalQuestionsAppend(a: seq<QuestionRecord>, b: seq<QuestionRecord>)
    ensures TotalQuestions(a + b) == TotalQuestions(a) + TotalQuestions(b)
  {
    if b != [] {
      var c := a + b;
      assert c[..|c| - 1] == a + b[..|b| - 1];
      assert c[|c| - 1] == b[|b| - 1];
      TotalQuestionsAppend(a, b[..|b| - 1]);
    } else {
      assert a + b == a;
    }
  }

  /** One article of the inner loop: a success appends its record and
      advances both counters; a failure changes nothing. */
  function Attempt(p: Progress, a: Article, gen: string -> Option<seq<string>>): Progress {
    match gen(a.content)
    case Some(qs) =>
      Progress(p.allQuestions + [QuestionRecord(a.url, a.title, a.content, qs)],
               p.questionCount + |qs|, p.processedCount + 1)
    case None => p
  }

  /** The inner loop over one batch. */
  function AttemptAll(p: Progress, batch: seq<Article>, gen: string -> Option<seq<string>>): Progress {
    if batch == [] then p else Attempt(AttemptAll(p, batch[..|batch| - 1], gen), batch[|batch| - 1], gen)
  }

  /** The outer loop: a batch is taken only while fewer than 20 questions
      have been gathered. */
  function Run(batches: seq<seq<Article>>, gen: string -> Option<seq<string>>): Progress {
    if batches == [] then Progress([], 0, 0)
    else
      var p := Run(batches[..|batches| - 1], gen);
      if p.questionCount >= QuestionLimit then p else AttemptAll(p, batches[|batches| - 1], gen)
  }

  /** A batch adds the records of its successful articles, their questions
      and their number. */
  lemma {:induction false} AttemptAllAdds(p: Progress, batch: seq<Article>, gen: string -> Option<seq<string>>)
    ensures var rs := Successes(batch, QuestionBuilder(gen));
            AttemptAll(p, batch, gen) ==
            Progress(p.allQuestions + rs, p.questionCount + TotalQuestions(rs), p.processedCount + |rs|)
  {
    if batch != [] {
      var init := batch[..|batch| - 1];
      var last := batch[|batch| - 1];
      AttemptAllAdds(p, init, gen);
      var before := Successes(init, QuestionBuilder(gen));
      match gen(last.content)
      case Some(qs) =>
        var r := QuestionRecord(last.url, last.title, last.content, qs);
        assert QuestionBuilder(gen)(last) == Some(r);
        assert Successes(batch, QuestionBuilder(gen)) == before + [r];
        TotalQuestionsAppend(before, [r]);
        assert TotalQuestions([r]) == |qs| by {
          assert [r][..0] == [];
        }
      case None =>
        assert QuestionBuilder(gen)(last) == None;
        assert Successes(batch, QuestionBuilder(gen)) == before + [];
        assert before + [] == before;
        assert AttemptAll(p, batch, gen) == AttemptAll(p, init, gen);
    }
  }

  /** Once the limit is reached the remaining batches are not taken. */
  lemma {:induction false} StopStays(batches: seq<seq<Article>>, gen: string -> Option<seq<string>>, b: nat)
    requires b <= |batches| && Run(batches[..b], gen).questionCount >= QuestionLimit
    ensures Run(batches, gen) == Run(batches[..b], gen)
    decreases |batches|
  {
    if b < |batches| {
      var init := batches[..|batches| - 1];
      assert init[..b] == batches[..b];
      StopStays(init, gen, b);
    } else {
      assert batches[..b] == batches;
    }
  }

  /** The counters agree with the records: one processed article per
      record, and the question count is the records' questions. */
  lemma {:induction false} RunCounts(batches: seq<seq<Article>>, gen: string -> Option<seq<string>>)
    ensures Run(batches, gen).processedCount == |Run(batches, gen).allQuestions|
    ensures Run(batches, gen).questionCount == TotalQuestions(Run(batches, gen).allQuestions)
  {
    if batches != [] {
      var init := batches[..|batches| - 1];
      var q := Run(init, gen);
      RunCounts(init, gen);
      if q.questionCount < QuestionLimit {
        AttemptAllAdds(q, batches[|batches| - 1], gen);
        TotalQuestionsAppend(q.allQuestions, Successes(batches[|batches| - 1], QuestionBuilder(gen)));
      }
    }
  }

  lemma SuccessesSnoc(init: seq<seq<Article>>, last: seq<Article>, gen: string -> Option<seq<string>>)
    ensures Successes(Flatten(init + [last]), QuestionBuilder(gen)) ==
            Successes(Flatten(init), QuestionBuilder(gen)) + Successes(last, QuestionBuilder(gen))
  {
    FlattenSnoc(init, last);
    SuccessesAppend(Flatten(init), last, QuestionBuilder(gen));
  }

  /** The records are those of the successful articles of a prefix of the
      batches; a batch is left out only once the limit was reached. */
  lemma {:induction false} RunIsPrefix(batches: seq<seq<Article>>, gen: string -> Option<seq<string>>)
    ensures exists b :: 0 <= b <= |batches| &&
                        Run(batches, gen).allQuestions == Successes(Flatten(batches[..b]), QuestionBuilder(gen)) &&
                        (b < |batches| ==> Run(batches, gen).questionCount >= QuestionLimit)
  {
    if batches == [] {
      assert batches[..0] == [];
    } else {
      var init := batches[..|batches| - 1];
      var last := batches[|batches| - 1];
      var q := Run(init, gen);
      RunIsPrefix(init, gen);
      var b0 :| 0 <= b0 <= |init| &&
                q.allQuestions == Successes(Flatten(init[..b0]), QuestionBuilder(gen)) &&
                (b0 < |init| ==> q.questionCount >= QuestionLimit);
      if q.questionCount < QuestionLimit {
        AttemptAllAdds(q, last, gen);
        assert init[..b0] == init;
        SuccessesSnoc(init, last, gen);
        assert batches[..|batches|] == init + [last];
      } else {
        assert init[..b0] == batches[..b0];
      }
    }
  }

  /** The cutoff is checked only between batches, so with batches of one
      article the count overshoots 20 by less than the largest number of
      questions one article yields. */
  lemma {:induction false} OvershootBounded(batches: seq<seq<Article>>, gen: string -> Option<seq<string>>, m: nat)
    requires forall k :: 0 <= k < |batches| ==> |batches[k]| <= 1
    requires forall k, i :: 0 <= k < |batches| && 0 <= i < |batches[k]| && gen(batches[k][i].content).Some? ==>
                            |gen(batches[k][i].content).value| <= m
    ensures Run(batches, gen).questionCount < QuestionLimit + m
  {
    if batches != [] {
      var init := batches[..|batches| - 1];
      var last := batches[|batches| - 1];
      assert forall k :: 0 <= k < |init| ==> init[k] == batches[k];
      OvershootBounded(init, gen, m);
      if last != [] {
        assert last[..0] == [];
        assert AttemptAll(Run(init, gen), last, gen) == Attempt(Run(init, gen), last[0], gen);
        assert |batches[|batches| - 1]| <= 1 && batches[|batches| - 1][0] == last[0];
      }
    }
  }

  /** The count can end above 20: a single article yielding 25 questions. */
  lemma OvershootHappens()
    ensures var gen := (c: string) => Some(seq(25, i => "q"));
            Run(Batches([Article("u", "t", "c")], 1), gen).questionCount == 25
  {
    var a := Article("u", "t", "c");
    assert Batches([a], 1) == [[a]] by {
      assert [a][..Min(1, 1)] == [a];
      assert [a][Min(1, 1)..] == [];
    }
    assert [[a]][..0] == [];
    assert [a][..0] == [];
  }

  /** `main` after reading the file: batches of one, the outer loop with its
      early `break`, and the inner loop over each batch. */
  method QuestionCreatorMain(articles: seq<Article>, gen: string -> Option<seq<string>>)
    returns (allQuestions: seq<QuestionRecord>, processedCount: nat, questionCount: nat)
    ensures Progress(allQuestions, questionCount, processedCount) == Run(Batches(articles, 1), gen)
  {
    var batches := ProcessInBatches(articles, 1);
    processedCount := 0;
    allQuestions := [];
    questionCount := 0;
    var b := 0;
    while b < |batches|
      invariant b <= |batches|
      invariant Progress(allQuestions, questionCount, processedCount) == Run(batches[..b], gen)
    {
      if questionCount >= QuestionLimit {
        StopStays(batches, gen, b);
        break;
      }
      var batch := batches[b];
      ghost var before := Progress(allQuestions, questionCount, processedCount);
      for j := 0 to |batch|
        invariant Progress(allQuestions, questionCount, processedCount) == AttemptAll(before, batch[..j], gen)
      {
        assert batch[..j + 1][..j] == batch[..j];
        var questions := gen(batch[j].content);
        if questions.Some? {
          allQuestions := allQuestions + [QuestionRecord(batch[j].url, batch[j].title, batch[j].content, questions.value)];
          questionCount := questionCount + |questions.value|;
          processedCount := processedCount + 1;
        }
      }
      assert batch[..|batch|] == batch;
      assert batches[..b + 1][..b] == batches[..b];
      b := b + 1;
    }
    if b == |batches| {
      assert batches[..b] == batches;
    }
  }

  /** With batches of one, the run depends on the articles alone: the
      cutoff bound in terms of the articles. */
  lemma MainOvershootBounded(articles: seq<Article>, gen: string -> Option<seq<string>>, m: nat)
    requires forall i :: 0 <= i < |articles| && gen(articles[i].content).Some? ==> |gen(articles[i].content).value| <= m
    ensures Run(Batches(articles, 1), gen).questionCount < QuestionLimit + m
  {
    BatchesOfOne(articles);
    OvershootBounded(Batches(articles, 1), gen, m);
  }
}
