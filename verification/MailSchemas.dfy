/** The records the decision pipeline passes around, reduced to the fields its decisions read. */
module MailSchemas {
  import opened Text

  datatype Option<+T> = None | Some(value: T)

  datatype Retriever = Exact | RoutingRule | SimilarCase | AssigneeCapability

  /** A retrieval hit; `assignee` is the assignee_user_id of its metadata, `""` when it has none. */
  datatype Hit = Hit(
    retriever: Retriever, sourceType: string, sourceId: Option<string>, title: string,
    score: real, rerank: Option<real>, assignee: string)
  {
    predicate Valid() {
      && 0.0 <= score <= 1.0 && (rerank.Some? ==> 0.0 <= rerank.value <= 1.0)
      && (sourceId.Some? ==> sourceId.value != "" && sourceId.value != "None")
    }
  }

  /** Verified facts of one mail; an absent name is `""`. */
  datatype Facts = Facts(
    senderDomain: string, customerName: string, customerCandidates: seq<string>,
    requestTypes: seq<string>, requestedActions: seq<string>,
    productNames: seq<string>, productGroups: seq<string>, partNumbers: seq<string>,
    projectNumbers: seq<string>, vesselNames: seq<string>,
    missingInformation: seq<string>, contradictions: seq<string>,
    urgencySignals: seq<string>, importanceSignals: seq<string>)

  datatype Classification = Classification(primaryType: string, secondaryTypes: seq<string>, confidence: real,
      reviewRequired: bool)

  /** `str.casefold` on ASCII. */
  function Fold(s: string): (r: string)
    ensures |r| == |s|
  {
    seq(|s|, i requires 0 <= i < |s| => if 'A' <= s[i] <= 'Z' then s[i] - 'A' + 'a' else s[i])
  }

  function Normalize(s: string): string { Fold(Strip(s)) }
}
