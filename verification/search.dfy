/**
  The request validation of `searchProblems`: which (query, body.problems)
  pairs are handed to the index's `match` and which are answered with 400.
  The validation is a function of the request alone, so a rejected request
  cannot reach the index.
 */
module Search {
  import opened JsValues

  const MinQueryLength: nat := 3
  const MaxQueryLength: nat := 50
  const MaxExcluded: nat := 26

  datatype Validation =
    | BadRequest                                         // status 400, no body
    | Accepted(query: string, excluded: seq<JsValue>)    // the arguments handed to `match`

  /** The query is a string of 3 to 50 UTF-16 code units. */
  predicate AcceptableQuery(query: JsValue)
  {
    query.Str? && MinQueryLength <= Utf16Length(query.s) <= MaxQueryLength
  }

  /** The exclusion list is falsy (it then stands for []) or an array of at most 26 entries. */
  predicate AcceptableExclusions(problems: JsValue)
  {
    !Truthy(problems) || (problems.Arr? && |problems.elems| <= MaxExcluded)
  }

  /** Validation of `req.params.query` and `req.body.problems`, in the order the handler checks them. */
  function ValidateSearch(query: JsValue, problems: JsValue): (r: Validation)
    ensures r.Accepted? <==> AcceptableQuery(query) && AcceptableExclusions(problems)
    ensures r.Accepted? ==> query == Str(r.query)
    ensures r.Accepted? && Truthy(problems) ==> problems == Arr(r.excluded)
    ensures r.Accepted? && !Truthy(problems) ==> r.excluded == []
  {
    var inserted := if Truthy(problems) then problems else Arr([]);
    if !query.Str? || !inserted.Arr? then BadRequest
    else if Utf16Length(query.s) < MinQueryLength || Utf16Length(query.s) > MaxQueryLength
         || |inserted.elems| > MaxExcluded then BadRequest
    else Accepted(query.s, inserted.elems)
  }

  /** Any falsy `problems` (absent, null, false, 0, NaN, "") is treated exactly like []. */
  lemma FalsyExclusionsAreEmpty(query: JsValue, problems: JsValue)
    requires !Truthy(problems)
    ensures ValidateSearch(query, problems) == ValidateSearch(query, Arr([]))
  {
  }

  /** A truthy `problems` that is not an array is rejected whatever the query. */
  lemma NonArrayExclusionsRejected(query: JsValue, problems: JsValue)
    requires Truthy(problems) && !problems.Arr?
    ensures ValidateSearch(query, problems) == BadRequest
  {
  }

  /** The boundary cases: query lengths 2, 3, 50 and 51, exclusion lists of 26 and 27 entries. */
  lemma ValidationBoundaries()
    ensures ValidateSearch(Str("ab"), Undefined) == BadRequest
    ensures ValidateSearch(Str("abc"), Undefined) == Accepted("abc", [])
    ensures ValidateSearch(Str(seq(50, _ => 'x')), Arr([])) == Accepted(seq(50, _ => 'x'), [])
    ensures ValidateSearch(Str(seq(51, _ => 'x')), Arr([])) == BadRequest
    ensures ValidateSearch(Str("abc"), Arr(seq(26, _ => Str("id")))) == Accepted("abc", seq(26, _ => Str("id")))
    ensures ValidateSearch(Str("abc"), Arr(seq(27, _ => Str("id")))) == BadRequest
    ensures ValidateSearch(Num(3.0), Undefined) == BadRequest
  {
    BmpLength("ab");
    BmpLength("abc");
    BmpLength(seq(50, _ => 'x'));
    BmpLength(seq(51, _ => 'x'));
  }

  /** Length counts code units: 25 characters outside the BMP already make 50 and are accepted, 26 are not. */
  lemma AstralQueryLength()
    ensures ValidateSearch(Str(seq(25, _ => '\U{1F600}')), Undefined).Accepted?
    ensures ValidateSearch(Str(seq(26, _ => '\U{1F600}')), Undefined) == BadRequest
  {
    AllAstral(seq(25, _ => '\U{1F600}'));
    AllAstral(seq(26, _ => '\U{1F600}'));
  }
}
