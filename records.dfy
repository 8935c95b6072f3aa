/** The stored entities, the responses the handlers build, and the pure queries the
    handlers run over the store (category filter, text search, primary-key lookup). */
module Records {
  import opened Options
  import opened Pagination

  /** Number of questions on one page of a listing. */
  const QUESTIONS_PER_PAGE: nat := 10

  /** A JSON scalar as a request body may carry it for `category` and `difficulty`
      (their default, when the key is missing, is the empty string). */
  datatype Value = Text(s: string) | Number(n: int)

  datatype Question = Question(id: int, question: string, answer: string, category: Value, difficulty: Value)

  /** A category row; `typeName` is the column the source calls `type`. */
  datatype Category = Category(id: int, typeName: string)

  /** The four error responses the application registers. */
  datatype Status = BadRequest | NotFound | Unprocessable | InternalServerError

  function Code(s: Status): int
  {
    match s
    case BadRequest => 400
    case NotFound => 404
    case Unprocessable => 422
    case InternalServerError => 500
  }

  function Message(s: Status): string
  {
    match s
    case BadRequest => "Bad Request"
    case NotFound => "Resource Not Found"
    case Unprocessable => "Not Processable"
    case InternalServerError => "Internal Server Error"
  }

  /** A handler either answers with `success: true` and a body, or aborts with a status. */
  datatype Response<T> = Ok(body: T) | Abort(status: Status)

  /** Body of GET /questions (besides the constant `current_category: []`). */
  datatype QuestionsPage<F> = QuestionsPage(totalQuestions: nat, categories: map<int, string>, questions: seq<F>)

  /** Body of POST /questions, in both its search and its create form. */
  datatype QuestionList<F> = QuestionList(questions: seq<F>, totalQuestions: nat)

  /** Body of GET /categories/<id>/questions. */
  datatype CategoryPage<F> = CategoryPage(questions: seq<F>, totalQuestions: nat, currentCategory: string)

  /** The body of POST /questions; a missing key is `None`. */
  datatype CreateBody = CreateBody(
    question: Option<string>, answer: Option<string>,
    category: Option<Value>, difficulty: Option<Value>,
    searchTerm: Option<string>)

  function TextOr(v: Option<string>): string { if v.Some? then v.value else "" }
  function ValueOr(v: Option<Value>): Value { if v.Some? then v.value else Text("") }

  // ---------------------------------------------------------------------------
  // Filtering, once for all the queries that select rows.

  function Filter<T>(s: seq<T>, keep: T -> bool): (r: seq<T>)
    ensures |r| <= |s|
  {
    if s == [] then [] else (if keep(s[0]) then [s[0]] else []) + Filter(s[1..], keep)
  }

  /** A filter keeps exactly the elements that pass the test. */
  lemma {:induction false} FilterMembers<T>(s: seq<T>, keep: T -> bool)
    ensures forall x :: x in Filter(s, keep) <==> x in s && keep(x)
  {
    if s != [] {
      FilterMembers(s[1..], keep);
      assert s == [s[0]] + s[1..];
    }
  }

  /** Questions are held in strictly ascending id order, as `order_by(Question.id)` returns them. */
  ghost predicate IdsAscending(qs: seq<Question>)
  {
    forall i, j :: 0 <= i < j < |qs| ==> qs[i].id < qs[j].id
  }

  /** A filter keeps the id order. */
  lemma {:induction false} FilterKeepsAscending(qs: seq<Question>, keep: Question -> bool)
    requires IdsAscending(qs)
    ensures IdsAscending(Filter(qs, keep))
  {
    if qs != [] {
      FilterKeepsAscending(qs[1..], keep);
      FilterMembers(qs[1..], keep);
      var rest := Filter(qs[1..], keep);
      forall x | x in rest ensures qs[0].id < x.id {
        var k :| 0 <= k < |qs[1..]| && qs[1..][k] == x;
        assert qs[k + 1] == x;
      }
    }
  }

  // ---------------------------------------------------------------------------
  // Queries.

  /** `Question.query.filter_by(category=id)` */
  function InCategory(qs: seq<Question>, id: int): (r: seq<Question>)
    ensures |r| <= |qs|
    ensures forall q :: q in r ==> q in qs && q.category == Number(id)
  {
    FilterMembers(qs, (q: Question) => q.category == Number(id));
    Filter(qs, (q: Question) => q.category == Number(id))
  }

  /** `Category.query.filter_by(id=id).one_or_none()` */
  function FindCategory(cats: seq<Category>, id: int): (r: Option<Category>)
    ensures r.Some? ==> r.value in cats && r.value.id == id
  {
    if cats == [] then None
    else if cats[0].id == id then Some(cats[0])
    else FindCategory(cats[1..], id)
  }

  /** The lookup finds a category exactly when one with that id exists. */
  lemma {:induction false} FindCategoryComplete(cats: seq<Category>, id: int)
    ensures FindCategory(cats, id).None? <==> forall c :: c in cats ==> c.id != id
  {
    if cats != [] {
      FindCategoryComplete(cats[1..], id);
      assert cats == [cats[0]] + cats[1..];
    }
  }

  /** `Question.query.get(id)`: the position of the question with that id. */
  function IndexOfId(qs: seq<Question>, id: int): (r: Option<nat>)
    ensures r.Some? ==> r.value < |qs| && qs[r.value].id == id
    ensures r.None? ==> forall q :: q in qs ==> q.id != id
  {
    if qs == [] then None
    else if qs[0].id == id then Some(0)
    else match IndexOfId(qs[1..], id)
      case None => None
      case Some(k) => Some(k + 1)
  }

  /** The store after the question with id `id` is gone. */
  function Without(qs: seq<Question>, id: int): (r: seq<Question>)
    ensures |r| <= |qs|
    ensures forall q :: q in r ==> q in qs && q.id != id
  {
    FilterMembers(qs, (q: Question) => q.id != id);
    Filter(qs, (q: Question) => q.id != id)
  }

  /** With ascending ids, deleting the row at index `k` removes that one question and keeps
      every other one in place. */
  lemma {:induction false} WithoutRemovesOne(qs: seq<Question>, k: nat)
    requires IdsAscending(qs) && k < |qs|
    ensures Without(qs, qs[k].id) == qs[..k] + qs[k + 1..]
    ensures |Without(qs, qs[k].id)| == |qs| - 1
  {
    var id := qs[k].id;
    if k == 0 {
      WithoutAbsent(qs[1..], id);
    } else {
      WithoutRemovesOne(qs[1..], k - 1);
      assert qs[1..][k - 1] == qs[k];
      assert qs[..k] == [qs[0]] + qs[1..][..k - 1];
      assert qs[k + 1..] == qs[1..][k..];
    }
  }

  /** Removing an id nobody has changes nothing. */
  lemma {:induction false} WithoutAbsent(qs: seq<Question>, id: int)
    requires forall q :: q in qs ==> q.id != id
    ensures Without(qs, id) == qs
  {
    if qs != [] {
      WithoutAbsent(qs[1..], id);
      assert qs == [qs[0]] + qs[1..];
    }
  }

  /** After a delete the id is gone from the store and every other question stays. */
  lemma WithoutMembers(qs: seq<Question>, id: int)
    ensures forall q :: q in Without(qs, id) <==> q in qs && q.id != id
  {
    FilterMembers(qs, (q: Question) => q.id != id);
  }

  // ---------------------------------------------------------------------------
  // Case-insensitive search: `Question.question.ilike('%term%')`.

  /** ASCII lower-casing of one character. */
  function LowerChar(c: char): char
  {
    if 'A' <= c <= 'Z' then (c as int + 32) as char else c
  }

  function Lower(s: string): (r: string)
    ensures |r| == |s|
  {
    seq(|s|, i requires 0 <= i < |s| => LowerChar(s[i]))
  }

  /** `pattern` occurs in `text` starting at position `i`. */
  predicate OccursAt(text: string, pattern: string, i: int)
  {
    0 <= i <= |text| - |pattern| && text[i..i + |pattern|] == pattern
  }

  /** SQL `LIKE '%pattern%'` without wildcards inside the pattern. */
  predicate ContainsText(text: string, pattern: string)
  {
    exists i | 0 <= i <= |text| - |pattern| :: OccursAt(text, pattern, i)
  }

  predicate MatchesTerm(q: Question, term: string)
  {
    ContainsText(Lower(q.question), Lower(term))
  }

  function Search(qs: seq<Question>, term: string): (r: seq<Question>)
    ensures |r| <= |qs|
    ensures forall q :: q in r ==> q in qs && MatchesTerm(q, term)
  {
    FilterMembers(qs, (q: Question) => MatchesTerm(q, term));
    Filter(qs, (q: Question) => MatchesTerm(q, term))
  }

  /** The search returns exactly the questions whose text contains the term, ignoring case. */
  lemma SearchFindsMatches(qs: seq<Question>, term: string)
    ensures forall q :: q in Search(qs, term) <==> q in qs && MatchesTerm(q, term)
  {
    FilterMembers(qs, (q: Question) => MatchesTerm(q, term));
  }

  /** The match ignores case on both sides: terms that differ only in the case of their
      letters select the same questions, and so do question texts that differ only in case. */
  lemma MatchIgnoresCase(q: Question, q': Question, term: string, term': string)
    requires Lower(term) == Lower(term')
    requires Lower(q.question) == Lower(q'.question)
    ensures MatchesTerm(q, term) == MatchesTerm(q', term')
  {
  }

  /** An example of the case folding: "Who" and "WHO" find the question "who wrote it?". */
  lemma MatchIgnoresCaseExample()
    ensures MatchesTerm(Question(1, "who wrote it?", "", Number(1), Number(1)), "WHO")
  {
    assert OccursAt(Lower("who wrote it?"), Lower("WHO"), 0);
  }


  /** The category filter returns exactly the questions of that category. */
  lemma InCategoryMembers(qs: seq<Question>, id: int)
    ensures forall q :: q in InCategory(qs, id) <==> q in qs && q.category == Number(id)
  {
    FilterMembers(qs, (q: Question) => q.category == Number(id));
  }

  // ---------------------------------------------------------------------------
  // The id -> type dictionary.

  ghost predicate DistinctCategoryIds(cats: seq<Category>)
  {
    forall i, j :: 0 <= i < j < |cats| ==> cats[i].id != cats[j].id
  }

  /** The dictionary a loop `d[c.id] = c.type` over `cats` leaves behind. */
  function CategoryMapOf(cats: seq<Category>): map<int, string>
  {
    if cats == [] then map[]
    else CategoryMapOf(cats[..|cats| - 1])[cats[|cats| - 1].id := cats[|cats| - 1].typeName]
  }

  /** The dictionary has one key per category id, and each key maps to the type of the
      last category that carries it. */
  lemma {:induction false} CategoryMapLast(cats: seq<Category>)
    ensures CategoryMapOf(cats).Keys == set c | c in cats :: c.id
    ensures forall k :: 0 <= k < |cats| && (forall j :: k < j < |cats| ==> cats[j].id != cats[k].id)
              ==> CategoryMapOf(cats)[cats[k].id] == cats[k].typeName
  {
    if cats != [] {
      var init := cats[..|cats| - 1];
      CategoryMapLast(init);
      assert cats == init + [cats[|cats| - 1]];
      forall k | 0 <= k < |cats| && (forall j :: k < j < |cats| ==> cats[j].id != cats[k].id)
        ensures CategoryMapOf(cats)[cats[k].id] == cats[k].typeName
      {
        if k < |cats| - 1 {
          assert init[k] == cats[k];
        }
      }
    }
  }

  /** With distinct ids (the table's primary key), every category maps to its own type. */
  lemma CategoryMapExact(cats: seq<Category>)
    requires DistinctCategoryIds(cats)
    ensures CategoryMapOf(cats).Keys == set c | c in cats :: c.id
    ensures forall c :: c in cats ==> CategoryMapOf(cats)[c.id] == c.typeName
  {
    CategoryMapLast(cats);
    forall c | c in cats ensures CategoryMapOf(cats)[c.id] == c.typeName {
      var k :| 0 <= k < |cats| && cats[k] == c;
    }
  }
}
