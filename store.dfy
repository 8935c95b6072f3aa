/** The request handlers, as methods of the store they query and change. The store stands
    for the database behind the ORM: the question table (kept in ascending id order),
    the category table, and the next id the table's auto-increment will hand out. */
module Trivia {
  import opened Options
  import opened Pagination
  import opened Records
  import opened Quiz

  /** The loop `for category in categories: d[category.id] = category.type`. */
  method BuildCategoryMap(cats: seq<Category>) returns (d: map<int, string>)
    ensures d == CategoryMapOf(cats)
  {
    d := map[];
    for i := 0 to |cats|
      invariant d == CategoryMapOf(cats[..i])
    {
      assert cats[..i + 1][..i] == cats[..i];
      d := d[cats[i].id := cats[i].typeName];
    }
    assert cats[..|cats|] == cats;
  }

  /** The question the create form of POST /questions inserts, each missing field
      defaulting to the empty string. */
  function NewQuestion(id: int, body: CreateBody): (q: Question)
    ensures q.id == id
    ensures body.question.None? ==> q.question == ""
    ensures body.answer.None? ==> q.answer == ""
    ensures body.category.None? ==> q.category == Text("")
    ensures body.difficulty.None? ==> q.difficulty == Text("")
    ensures body.question.Some? ==> q.question == body.question.value
    ensures body.answer.Some? ==> q.answer == body.answer.value
    ensures body.category.Some? ==> q.category == body.category.value
    ensures body.difficulty.Some? ==> q.difficulty == body.difficulty.value
  {
    Question(id, TextOr(body.question), TextOr(body.answer), ValueOr(body.category), ValueOr(body.difficulty))
  }

  /** The `quiz_category` object of a quiz request; `id` is `None` when the key is missing. */
  datatype QuizCategory = QuizCategory(id: Option<int>)

  /** The quiz request carries both `previous_questions` and `quiz_category['id']`. */
  predicate QuizInputsPresent(previous: Option<seq<int>>, category: Option<QuizCategory>)
  {
    previous.Some? && category.Some? && category.value.id.Some?
  }

  /** The random draws of a quiz request eventually bring up an unseen question
      whenever the handler gets as far as drawing. */
  ghost predicate FairDraws(qs: seq<Question>, previous: Option<seq<int>>, category: Option<QuizCategory>,
                            rand: nat -> int, hit: nat)
  {
    (QuizInputsPresent(previous, category) && QuizPool(qs, category.value.id.value) != []) ==>
      ReachesUnseen(QuizPool(qs, category.value.id.value), previous.value, rand, hit)
  }

  class Store {
    var questions: seq<Question>
    var categories: seq<Category>
    var nextId: int

    /** Ids are primary keys, and the auto-increment counter is above every id in use. */
    ghost predicate Valid()
      reads this
    {
      IdsAscending(questions) &&
      (forall q :: q in questions ==> q.id < nextId) &&
      DistinctCategoryIds(categories)
    }

    constructor (categories: seq<Category>)
      requires DistinctCategoryIds(categories)
      ensures Valid()
      ensures this.questions == [] && this.categories == categories && nextId == 1
    {
      this.questions := [];
      this.categories := categories;
      this.nextId := 1;
    }

    /** GET /categories */
    method GetAllCategories() returns (r: Response<map<int, string>>)
      ensures r == Ok(CategoryMapOf(categories))
    {
      var d := BuildCategoryMap(categories);
      r := Ok(d);
    }

    /** GET /questions?page=N: 404 exactly when the requested page is empty. */
    method GetQuestions<F>(page: Option<int>, format: Question -> F) returns (r: Response<QuestionsPage<F>>)
      ensures r.Abort? <==> EmptyPage(PageNumber(page), |questions|, QUESTIONS_PER_PAGE)
      ensures r.Abort? ==> r.status == NotFound
      ensures r.Ok? ==> r.body == QuestionsPage(|questions|, CategoryMapOf(categories),
                                                GetPaginatedQuestions(page, questions, QUESTIONS_PER_PAGE, format))
    {
      var current := GetPaginatedQuestions(page, questions, QUESTIONS_PER_PAGE, format);
      PageEmptyIff(MapSeq(format, questions), PageNumber(page), QUESTIONS_PER_PAGE);
      if |current| == 0 {
        return Abort(NotFound);
      }
      var d := BuildCategoryMap(categories);
      r := Ok(QuestionsPage(|questions|, d, current));
    }

    /** DELETE /questions/<id>. The `abort(404)` for a missing id is raised inside the
        `try` and caught by `except Exception`, so a missing id answers 422. */
    method DeleteQuestion(id: int) returns (r: Response<string>)
      requires Valid()
      modifies this`questions
      ensures Valid()
      ensures r.Ok? <==> exists q :: q in old(questions) && q.id == id
      ensures r.Ok? ==> r.body == "Question successfully deleted"
      ensures r.Ok? ==> questions == Without(old(questions), id) && |questions| == |old(questions)| - 1
      ensures r.Abort? ==> r.status == Unprocessable && questions == old(questions)
    {
      var found := IndexOfId(questions, id);
      if found.None? {
        return Abort(Unprocessable);
      }
      var k := found.value;
      WithoutRemovesOne(questions, k);
      WithoutMembers(questions, id);
      FilterKeepsAscending(questions, (q: Question) => q.id != id);
      questions := questions[..k] + questions[k + 1..];
      r := Ok("Question successfully deleted");
    }

    /** POST /questions. A non-empty `searchTerm` searches and inserts nothing; otherwise
        one question is inserted and the requested page of all questions comes back. */
    method CreateQuestion<F>(body: CreateBody, page: Option<int>, format: Question -> F)
        returns (r: Response<QuestionList<F>>)
      requires Valid()
      modifies this`questions, this`nextId
      ensures Valid()
      ensures r.Ok?
      ensures TextOr(body.searchTerm) != "" ==>
        questions == old(questions) && nextId == old(nextId) &&
        r.body == QuestionList(MapSeq(format, Search(questions, TextOr(body.searchTerm))),
                               |Search(questions, TextOr(body.searchTerm))|)
      ensures TextOr(body.searchTerm) == "" ==>
        questions == old(questions) + [NewQuestion(old(nextId), body)] && nextId == old(nextId) + 1 &&
        r.body == QuestionList(GetPaginatedQuestions(page, questions, QUESTIONS_PER_PAGE, format), |questions|)
    {
      var search := TextOr(body.searchTerm);
      if search != "" {
        var found := Search(questions, search);
        var current := MapSeq(format, found);
        r := Ok(QuestionList(current, |current|));
      } else {
        questions := questions + [NewQuestion(nextId, body)];
        nextId := nextId + 1;
        var current := GetPaginatedQuestions(page, questions, QUESTIONS_PER_PAGE, format);
        r := Ok(QuestionList(current, |questions|));
      }
    }

    /** GET /categories/<id>/questions. An unknown category answers 422; an empty page
        is not an error here. */
    method GetQuestionsByCategory<F>(id: int, page: Option<int>, format: Question -> F)
        returns (r: Response<CategoryPage<F>>)
      ensures r.Abort? <==> forall c :: c in categories ==> c.id != id
      ensures r.Abort? ==> r.status == Unprocessable
      ensures r.Ok? ==> FindCategory(categories, id).Some?
      ensures r.Ok? ==>
        r.body == CategoryPage(GetPaginatedQuestions(page, InCategory(questions, id), QUESTIONS_PER_PAGE, format),
                               |InCategory(questions, id)|,
                               FindCategory(categories, id).value.typeName)
    {
      var category := FindCategory(categories, id);
      FindCategoryComplete(categories, id);
      if category.None? {
        return Abort(Unprocessable);
      }
      var matching := InCategory(questions, id);
      var current := GetPaginatedQuestions(page, matching, QUESTIONS_PER_PAGE, format);
      r := Ok(CategoryPage(current, |matching|, category.value.typeName));
    }

    /** POST /quizzes. Every failure answers 422: the `abort(400)` for missing inputs is
        raised inside the `try`, a missing `id` key and an empty pool raise too. */
    method GetQuizzes<F>(previous: Option<seq<int>>, category: Option<QuizCategory>,
                         rand: nat -> int, ghost hit: nat, format: Question -> F)
        returns (r: Response<F>)
      requires FairDraws(questions, previous, category, rand, hit)
      ensures r.Abort? ==> r.status == Unprocessable
      ensures r.Ok? <==> QuizInputsPresent(previous, category) && QuizPool(questions, category.value.id.value) != []
      ensures r.Ok? ==> exists q :: q in QuizPool(questions, category.value.id.value) &&
                                   q.id !in previous.value && r.body == format(q)
    {
      if previous.None? || category.None? {
        return Abort(Unprocessable);
      }
      if category.value.id.None? {
        return Abort(Unprocessable);
      }
      var pool := QuizPool(questions, category.value.id.value);
      if pool == [] {
        return Abort(Unprocessable);
      }
      var next, _ := DrawUnseen(pool, previous.value, rand, hit);
      r := Ok(format(next));
    }
  }

  /** Every question on a category page belongs to that category and is in the store. */
  lemma CategoryPageHoldsCategory(qs: seq<Question>, id: int, page: int, n: nat, q: Question)
    requires q in Paginate(InCategory(qs, id), page, n)
    ensures q in qs && q.category == Number(id)
  {
    PageItemsFromList(InCategory(qs, id), page, n, q);
    InCategoryMembers(qs, id);
  }

  /** An empty question table makes every listing page 404. */
  lemma NoQuestionsNotFound(page: int)
    ensures EmptyPage(page, 0, QUESTIONS_PER_PAGE)
  {
  }
}
