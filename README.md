# Trivia API: a Dafny model

This project models the decision logic of a small Flask backend for a trivia game
(`backend/flaskr/__init__.py`). The backend lists, searches, creates and deletes trivia
questions, lists categories, filters questions by category, and picks the next unseen
question for a quiz. Three parts are modelled:

- **Pagination** (`pagination.dfy`, module `Pagination`). `get_paginated_questions` formats
  every question and returns `questions[start:end]`, where `start = (page - 1) * n` and
  `end = start + n`. The slice follows Python's rules exactly: a negative bound counts from
  the end, and both bounds are clipped to the list's length. The slice is proved equal to an
  independent reference reading of the slice: the items whose index lies between the bounds,
  in order. The lemmas then cover page size, contiguity, pages past the end, page 0 and
  negative pages, and which pages are empty.
- **Handlers over an in-memory store** (`records.dfy` module `Records`, and `store.dfy`
  module `Trivia`). Class `Trivia.Store` holds the question table in ascending id order,
  the category table and the next auto-increment id. Each route handler is a method that
  returns `Ok(body)` or `Abort(status)`. The status codes are the ones the code produces,
  not the ones the inner `abort` calls name. `abort()` raises an exception, so an
  `abort(404)` or `abort(400)` inside `try: ... except Exception: abort(422)` answers 422. The
  id→type category dictionary is built by a loop (`Trivia.BuildCategoryMap`) that is proved
  against `Records.CategoryMapOf`.
- **Quiz selection** (`quiz.dfy`, module `Quiz`). The pool is every question for category
  id 0, and otherwise the questions of that category. `random.randint` becomes a stream of
  draws: `rand(i)` is the index returned by the `i`-th call. The `while found` loop is
  `Quiz.DrawUnseen`. It returns the first draw whose id is not in `previous_questions`. It
  terminates because a ghost index `hit` names a draw that is unseen. When every candidate
  has been seen, no such draw exists (`Quiz.AllSeenNeverStops`), so the original loop never
  ends in that case.

`format()` comes from the models module, which is not part of this model. It is a function
parameter `format: Question -> F`, and the handlers return formatted values of type `F`.
`Pagination.FormatThenPage` shows that formatting before or after slicing gives the same page.

Four consequences of the code that a reader might not expect:
- `abort()` raises an exception, so the inner `abort(404)` in delete (line 94) is caught by
  `except Exception` and a missing id answers 422.
- For the same reason, the inner `abort(400)` for a quiz request without its inputs
  (line 180) answers 422.
- A search response carries `total_questions`, equal to the number of matches (line 126).
- The create form of POST /questions returns the page named by the request's `page`
  parameter (lines 139-140), which is page 1 only when the parameter is absent.

## Model

| member | source | states |
|---|---|---|
| `Pagination.Slice` | backend/flaskr/__init__.py:17 | `items[start:end]`: never longer than the list, and the plain subsequence when both bounds are in range; its full meaning is `SliceIsPythonSlice` |
| `Pagination.Paginate` | backend/flaskr/__init__.py:13-17 | the page arithmetic `start = (page-1)*n`, `end = start + n`: page 0 is empty and page 1 is the first `n` items; its full meaning is in `PageBounded`, `PageOfPositive`, `PageOfNegative` and `PageEmptyIff` |
| `Pagination.GetPaginatedQuestions` | backend/flaskr/__init__.py:11-19 | `get_paginated_questions`: `page=0` yields an empty page, and without a `page` parameter a short list comes back whole, formatted; the rest is in `FormatThenPage` and `DefaultPageIsFirst` |
| `Pagination.SliceIsPythonSlice` | backend/flaskr/__init__.py:17 | the clipped slice `s[start:stop]` equals the items `s[k]`, in increasing `k`, with `start <= k < stop` after negative bounds are counted from the end |
| `Pagination.SliceIsContiguous` | backend/flaskr/__init__.py:17 | every slice is one contiguous, order-preserving run `s[lo..hi]` of the input |
| `Pagination.PageBounded` | backend/flaskr/__init__.py:13-17 | a page never holds more than `num_of_questions` items, and it is a contiguous run of the formatted list |
| `Pagination.PageOfPositive` | backend/flaskr/__init__.py:13-17 | for page >= 1 the page is items `[(page-1)*n, page*n)` clipped to the list length; a page starting past the end is empty, not an error |
| `Pagination.PageZeroIsEmpty` | backend/flaskr/__init__.py:13-17 | page 0 is always empty, because the slice ends at index 0 |
| `Pagination.PageOfNegative` | backend/flaskr/__init__.py:13-17 | a negative page counts back from the end: items `[max(0, L+(p-1)n), max(0, L+pn))` |
| `Pagination.PageEmptyIff` | backend/flaskr/__init__.py:13-17 | with n > 0, a page is empty exactly when it starts at or past the end, is page 0, or is a negative page that reaches back before the start |
| `Pagination.PageItemsFromList` | backend/flaskr/__init__.py:16-17 | every item of a page is an item of the list |
| `Pagination.FormatThenPage` | backend/flaskr/__init__.py:12-17 | formatting every question and then slicing gives the formatted slice of the questions |
| `Pagination.DefaultPageIsFirst` | backend/flaskr/__init__.py:12-17 | without a `page` parameter the page is 1: the first `n` formatted questions, or all of them when there are at most `n` |
| `Records.FindCategory` | backend/flaskr/__init__.py:154 | the category found is in the table and carries the requested id |
| `Records.FindCategoryComplete` | backend/flaskr/__init__.py:154-157 | the lookup finds nothing exactly when no category has that id |
| `Records.IndexOfId` | backend/flaskr/__init__.py:92-94 | the lookup by primary key gives a position holding that id, or none exactly when no question has that id |
| `Records.Without` | backend/flaskr/__init__.py:96 | the table after `question.delete()`: every remaining question was stored and has another id; both directions in `WithoutMembers`, the single removal in `WithoutRemovesOne` |
| `Records.WithoutRemovesOne` | backend/flaskr/__init__.py:96 | deleting the question at index k removes that one row and keeps every other row in order; the table shrinks by one |
| `Records.WithoutMembers` | backend/flaskr/__init__.py:96 | after the delete the id is gone, and every other question is still there |
| `Records.Search` | backend/flaskr/__init__.py:117-119 | the `ilike('%term%')` query: every result is a stored question whose text contains the term ignoring case; the converse is in `SearchFindsMatches` |
| `Records.SearchFindsMatches` | backend/flaskr/__init__.py:117-119 | the search returns exactly the stored questions whose text contains the term, ignoring case |
| `Records.MatchIgnoresCase` | backend/flaskr/__init__.py:118 | two terms that differ only in letter case select the same questions, and so do two question texts that differ only in case |
| `Records.MatchIgnoresCaseExample` | backend/flaskr/__init__.py:118 | the term "WHO" finds the question "who wrote it?" |
| `Records.InCategory` | backend/flaskr/__init__.py:159 | the `filter_by(category=id)` query: every result is a stored question of that category; both directions in `InCategoryMembers` |
| `Records.InCategoryMembers` | backend/flaskr/__init__.py:159 | the category filter returns exactly the questions whose category equals the id |
| `Records.CategoryMapLast` | backend/flaskr/__init__.py:50-52 | the dictionary has one key per category id, and each key maps to the type of the last category with that id |
| `Records.CategoryMapExact` | backend/flaskr/__init__.py:77-79 | with distinct ids, every category's id maps to that category's type and no other keys exist |
| `Trivia.BuildCategoryMap` | backend/flaskr/__init__.py:50-52 | the dictionary-building loop produces `CategoryMapOf(categories)` |
| `Trivia.Store.GetAllCategories` | backend/flaskr/__init__.py:44-59 | GET /categories answers with the id→type dictionary of all categories |
| `Trivia.Store.GetQuestions` | backend/flaskr/__init__.py:61-87 | GET /questions answers 404 exactly when the requested page is empty; otherwise it returns the unpaginated question count, the category dictionary and the page |
| `Trivia.NoQuestionsNotFound` | backend/flaskr/__init__.py:69-75 | with no questions stored, every page of GET /questions answers 404 |
| `Trivia.Store.DeleteQuestion` | backend/flaskr/__init__.py:89-103 | a missing id answers 422 and leaves the store unchanged; an existing id removes exactly that question and keeps the store's invariant |
| `Trivia.NewQuestion` | backend/flaskr/__init__.py:109-112 | the inserted question gets the new id and each body field, or the empty string for a missing key |
| `Trivia.Store.CreateQuestion` | backend/flaskr/__init__.py:105-148 | a non-empty `searchTerm` inserts nothing and returns every match, unpaginated, with the match count; otherwise it appends one question with the next id and defaulted fields, and returns the requested page and the new total |
| `Trivia.Store.GetQuestionsByCategory` | backend/flaskr/__init__.py:151-170 | an unknown category answers 422; otherwise it returns the page of that category's questions, their unpaginated count and the category's type |
| `Trivia.CategoryPageHoldsCategory` | backend/flaskr/__init__.py:159-163 | every question on a category page is stored and belongs to that category |
| `Trivia.Store.GetQuizzes` | backend/flaskr/__init__.py:172-208 | every failure answers 422; it succeeds exactly when both inputs and the `id` key are present and the pool is non-empty, and then returns a pool question whose id is not in `previous_questions` |
| `Quiz.QuizPool` | backend/flaskr/__init__.py:182-186 | the candidate pool: every question when the category id is 0, otherwise a selection of stored questions; exactly which ones is `QuizPoolMembers` |
| `Quiz.QuizPoolMembers` | backend/flaskr/__init__.py:182-186 | the pool is every question for category 0, and otherwise exactly the questions of that category |
| `Quiz.DrawUnseen` | backend/flaskr/__init__.py:189-200 | the loop returns a pool question whose id is not in `previous_questions`; it is the first such draw, and every earlier draw was rejected |
| `Quiz.AllSeenNeverStops` | backend/flaskr/__init__.py:194-200 | when every candidate's id is in `previous_questions`, no draw is ever accepted, so the loop can end only if an unseen candidate exists |
| `Quiz.UnseenIsReachable` | backend/flaskr/__init__.py:189-200 | if an unseen candidate exists, a sequence of draws reaches it, so the loop's precondition can be met |

## Left out

- Flask application construction, routing, `jsonify`, the `success: True` flag, the constant `current_category: []` of GET /questions, CORS and the `after_request` headers (lines 22-42). These are framework plumbing. The four error handlers (lines 211-241) appear only as the constant code and message of each `Records.Status`.
- SQLAlchemy, `setup_db` and the `Question`/`Category` models: the models module is not part of this model. The tables are sequences in `Trivia.Store`, and `format()` is a function parameter. Queries without `order_by` are modelled as returning rows in id order.
- `random.randint`: the draws are a parameter stream `rand`. Their distribution and probabilistic termination are not modelled.
- `Trivia.Store.GetQuizzes`: requires that the draws eventually bring up an unseen question. When every candidate has been seen, the source loops forever; the model excludes that input instead of representing a non-terminating run. `Quiz.AllSeenNeverStops` shows that the excluded case is exactly the one where no draw can ever be accepted.
- `Trivia.Store.GetAllCategories`: a database failure (answered 500) is not modelled, so the method always succeeds.
- `Trivia.Store.CreateQuestion`: a failing insert (for example a database that rejects the empty-string default for `category` or `difficulty`) is not modelled, so the 422 branch never occurs.
- SQL `ILIKE` details: `%` and `_` inside the search term are matched literally, and case folding covers ASCII letters only.
- Request bodies that are not JSON objects, a JSON `null` or non-string `searchTerm`, a `previous_questions` that is not a list, and a `quiz_category` that is not an object are not modelled. A `page` parameter that is not an integer is treated as absent, as `request.args.get(..., type=int)` does.
- Records.InCategory: stored `category` and `difficulty` values keep the JSON type they arrived with (`Text` or `Number`), and the filter compares `category` with `Number(id)`. A question created with `"category": "1"` therefore never matches category 1, although a database column of a single type would convert the value on insert. The column types are defined in the models module, which is not part of this model.
- Trivia.NewQuestion: does not convert `category` or `difficulty` to the column's type, and does not reject values the column could not hold, for the reason given in the previous line.
- Quiz.QuizPool: the quiz category id is an integer, so a JSON string id such as `"0"` cannot be expressed. In the source, `"0" == 0` is false (line 182), so such a request would filter by category instead of taking every question.
- Category ids are assumed to be distinct (they are the table's primary key), so `one_or_none()` never raises for multiple rows.
- Concurrent requests and transaction isolation are not modelled.
