// The `quizResults` list of local storage, written by storeResult in
// js/quiz.js and read and cleared by js/admin.js. The serialisation to
// JSON is not modelled: the store holds the records themselves.
module ResultStore {
  import opened QuizTypes

  class Store {
    /** The stored records, oldest first; an absent key reads as []. */
    var records: seq<ResultRecord>

    /** A store that already holds `prior` (what earlier sessions left behind). */
    constructor(prior: seq<ResultRecord>)
      ensures records == prior
    {
      records := prior;
    }

    /** storeResult: read the list, push the new record, write the list back. */
    method StoreResult(r: ResultRecord)
      modifies this
      ensures records == old(records) + [r]
      ensures |records| == |old(records)| + 1 && records[..|old(records)|] == old(records)
    {
      var results := records;
      results := results + [r];
      records := results;
    }

    /** localStorage.removeItem('quizResults'): later reads give the empty list. */
    method Clear()
      modifies this
      ensures records == []
    {
      records := [];
    }
  }
}
