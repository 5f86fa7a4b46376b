/**
 * Resolving the question type of a query request and deriving the query-shape
 * flags handed to subgraph search and query building.
 */
module QueryShape {
  import opened Wrappers
  import opened Labels

  /**
   * The trained question-type classifier, seen from outside: `predict` gives a
   * class for a question and `predictProba` the row of class probabilities.
   */
  datatype Classifier = Classifier(predict: string -> int, predictProba: string -> seq<real>)

  /** The shape flags passed on to subgraph search and query building. */
  datatype QueryFlags = QueryFlags(askQuery: bool, sortQuery: bool, countQuery: bool, doubleRelation: bool)

  /** The question type used for a request: the supplied one, else the classifier's, else SELECT. */
  function ResolveQuestionType(supplied: Option<int>, classifier: Option<Classifier>, question: string): (t: int)
    ensures supplied.Some? ==> t == supplied.value
    ensures supplied.None? && classifier.Some? ==> t == classifier.value.predict(question)
    ensures supplied.None? && classifier.None? ==> t == Select
  {
    match supplied
    case Some(given) => given
    case None =>
      match classifier
      case Some(c) => c.predict(question)
      case None => Select
  }

  /** The flags for a question type: COUNT sets countQuery, ASK sets askQuery; sorting and double relations stay off. */
  function ShapeFlags(questionType: int): (f: QueryFlags)
    ensures f.countQuery <==> questionType == Count
    ensures f.askQuery <==> questionType == Ask
    ensures !(f.countQuery && f.askQuery)
    ensures !f.sortQuery && !f.doubleRelation
  {
    var flags := QueryFlags(askQuery := false, sortQuery := false, countQuery := false, doubleRelation := false);
    if questionType == Count then flags.(countQuery := true)
    else if questionType == Ask then flags.(askQuery := true)
    else flags
  }

  /**
   * Indexing a probability row by the question type with Python's list
   * semantics: a negative index counts from the end, anything else out of
   * range raises, modelled as None.
   */
  function ClassProbability(row: seq<real>, questionType: int): (p: Option<real>)
    ensures p.Some? <==> -|row| <= questionType < |row|
    ensures 0 <= questionType < |row| ==> p == Some(row[questionType])
    ensures -|row| <= questionType < 0 ==> p == Some(row[|row| + questionType])
  {
    if 0 <= questionType < |row| then Some(row[questionType])
    else if -|row| <= questionType < 0 then Some(row[|row| + questionType])
    else None
  }
}
