/**
 * Building classifier training data from a parsed question/answer corpus:
 * one (question text, label) pair per corpus entry, in corpus order.
 */
module Datasets {
  import opened Labels

  /** One corpus entry: the question text, the reference query and the URIs it mentions. */
  datatype QaPair = QaPair(question: string, rawQuery: string, uris: seq<Uri>)

  /** The question-type training set: `X[i]` is the i-th question, `y[i]` its question-type label. */
  method PrepareQuestionClassifierDataset(qapairs: seq<QaPair>) returns (X: seq<string>, y: seq<int>)
    ensures |X| == |y| == |qapairs|
    ensures forall i :: 0 <= i < |qapairs| ==> X[i] == qapairs[i].question
    ensures forall i :: 0 <= i < |qapairs| ==> y[i] == QuestionTypeLabel(qapairs[i].rawQuery)
  {
    X, y := [], [];
    for k := 0 to |qapairs|
      invariant |X| == |y| == k
      invariant forall i :: 0 <= i < k ==> X[i] == qapairs[i].question
      invariant forall i :: 0 <= i < k ==> y[i] == QuestionTypeLabel(qapairs[i].rawQuery)
    {
      var qapair := qapairs[k];
      X := X + [qapair.question];
      y := y + [QuestionTypeLabel(qapair.rawQuery)];
    }
  }

  /**
   * The double-relation training set: `X[i]` is the i-th question, `y[i]` is 1
   * when the ontology/type URIs of its query repeat a value, else 0.
   * `isRelation` stands for the URI's own ontology-or-type test.
   */
  method PrepareDoubleRelationClassifierDataset(qapairs: seq<QaPair>, isRelation: Uri -> bool)
    returns (X: seq<string>, y: seq<int>)
    ensures |X| == |y| == |qapairs|
    ensures forall i :: 0 <= i < |qapairs| ==> X[i] == qapairs[i].question
    ensures forall i :: 0 <= i < |qapairs| ==> y[i] == DoubleRelationLabel(qapairs[i].uris, isRelation)
    ensures forall i :: 0 <= i < |qapairs| ==>
              (y[i] == 1 <==> RepeatedRelation(qapairs[i].uris, isRelation))
  {
    X, y := [], [];
    for k := 0 to |qapairs|
      invariant |X| == |y| == k
      invariant forall i :: 0 <= i < k ==> X[i] == qapairs[i].question
      invariant forall i :: 0 <= i < k ==> y[i] == DoubleRelationLabel(qapairs[i].uris, isRelation)
    {
      var qapair := qapairs[k];
      X := X + [qapair.question];
      y := y + [DoubleRelationLabel(qapair.uris, isRelation)];
    }
    forall i | 0 <= i < |qapairs|
      ensures y[i] == 1 <==> RepeatedRelation(qapairs[i].uris, isRelation)
    {
      DoubleRelationLabelMeaning(qapairs[i].uris, isRelation);
    }
  }
}
