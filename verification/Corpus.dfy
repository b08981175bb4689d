/** The joined chunk rows that ranking, expansion, the gate and the route read. */
module Corpus {
  import opened Prelude
  import opened ProductMatch

  datatype SourceType = Pdf | Html

  /** Words the re-sorts ignore. */
  const RERANK_STOPWORDS: set<string> :=
    {"the", "a", "an", "and", "or", "of", "for", "to", "on", "in", "with",
     "my", "what", "how", "do", "does", "i", "is", "it", "should", "user",
     "manual", "guide", "torque", "spec", "specs", "bolt", "size", "tool"}

  /** First letters that no stopword has. */
  const OTHER_LETTERS: set<char> := {'c', 'e', 'l', 'n', 'r', '2', '8'}

  lemma StopwordsStart(t: string)
    requires t != "" && t[0] in OTHER_LETTERS
    ensures t !in RERANK_STOPWORDS
  {
    assert forall s :: s in RERANK_STOPWORDS ==> s != "" && s[0] !in OTHER_LETTERS;
  }

  predicate IsWord(t: string) {
    t != "" && forall i :: 0 <= i < |t| ==> 'a' <= t[i] <= 'z' || '0' <= t[i] <= '9'
  }

  /** What the tokenizer of the re-sorts can yield. */
  ghost predicate AreTokens(tokens: set<string>) {
    forall t :: t in tokens ==> IsWord(t) && t !in RERANK_STOPWORDS
  }

  /** A document title with what the two tokenizers read off it. */
  datatype Title = Title(text: string, tokens: set<string>, reading: Reading)

  /** A chunk text with its tokens and whether the torque pattern occurs in it. */
  datatype Body = Body(text: string, tokens: set<string>, hasTorque: bool)

  datatype Row = Row(
    document: int, ordinal: int, body: Body, png: Option<string>, parentAnchor: Option<string>,
    sourceUrl: string, sourceType: SourceType, title: Title, documentUrl: string, facet: Facet)

  /** chunks JOIN documents, by chunk id. */
  type Rows = map<int, Row>

  /** Columns of the document agree on all its chunks, and (document, ordinal) is unique. */
  ghost predicate WellFormed(rows: Rows) {
    && (forall c, d :: c in rows && d in rows && rows[c].document == rows[d].document ==>
          && rows[c].sourceType == rows[d].sourceType
          && rows[c].title == rows[d].title
          && rows[c].facet == rows[d].facet
          && (rows[c].ordinal == rows[d].ordinal ==> c == d))
  }

  /** A question with its retrieval tokens and the product it asks about. */
  datatype Question = Question(text: string, tokens: set<string>, asked: ProductScope)
}
