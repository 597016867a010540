/**
 * Rules shared by the two Streamlit chat front ends, streamlit/chat/chat.py
 * and Betty/streamlit/chat/chat.py: the collection-name sanitiser and the
 * session state that `set_active_collection` and `handle_feedback` update.
 */
module ChatCommon {
  import opened Wrappers
  import opened Text

  // ------------------------------------------------------------ collection names

  /** The regex class `[a-zA-Z0-9._-]`. */
  predicate AllowedChar(c: char) {
    IsAsciiLetter(c) || IsDigit(c) || c == '.' || c == '_' || c == '-'
  }

  /** A name the sanitiser lets through: 3 to 63 allowed characters. */
  predicate ValidCollectionName(s: string) {
    3 <= |s| <= 63 && forall i :: 0 <= i < |s| ==> AllowedChar(s[i])
  }

  /** `re.sub(r'[^a-zA-Z0-9._-]', '_', ...)` on one character. */
  function SanitizeChar(c: char): (d: char)
    ensures AllowedChar(d)
    ensures AllowedChar(c) <==> d == c
  {
    if AllowedChar(c) then c else '_'
  }

  /**
   * `sanitize_collection_name`: every character outside the allowed class
   * becomes '_', and a name whose length is outside 3..63 becomes "".
   */
  function SanitizeCollectionName(name: string): (r: string)
    ensures r == "" <==> !(3 <= |name| <= 63)
    ensures r != "" ==> |r| == |name| && forall i :: 0 <= i < |name| ==> r[i] == SanitizeChar(name[i])
    ensures r == "" || ValidCollectionName(r)
  {
    if name == "" then ""
    else
      var s := seq(|name|, i requires 0 <= i < |name| => SanitizeChar(name[i]));
      if |s| < 3 then ""
      else if |s| > 63 then ""
      else s
  }

  /** The names the sanitiser returns unchanged are exactly the valid ones. */
  lemma SanitizeFixpoints(name: string)
    ensures SanitizeCollectionName(name) == name && name != "" <==> ValidCollectionName(name)
  {
    if ValidCollectionName(name) {
      var r := SanitizeCollectionName(name);
      assert |r| == |name|;
      forall i | 0 <= i < |name|
        ensures r[i] == name[i]
      {
        assert AllowedChar(name[i]);
      }
    }
  }

  /** Sanitising twice is sanitising once. */
  lemma SanitizeIdempotent(name: string)
    ensures SanitizeCollectionName(SanitizeCollectionName(name)) == SanitizeCollectionName(name)
  {
    var r := SanitizeCollectionName(name);
    if r != "" {
      SanitizeFixpoints(r);
    }
  }

  // ------------------------------------------------------------ session state

  datatype Message = Message(role: string, content: string)

  /** A falsy collection name is `None` or "". */
  predicate Truthy(name: Option<string>) {
    name.Some? && name.value != ""
  }

  /**
   * The feedback text of the message at index `i`: the message just before
   * it when that one is from the user, "" otherwise.
   */
  function PrecedingUserMessage(messages: seq<Message>, i: nat): (r: string)
    requires i < |messages|
    ensures r != "" ==> i > 0 && messages[i - 1].role == "user"
    ensures i > 0 && messages[i - 1].role == "user" ==> r == messages[i - 1].content
  {
    if i > 0 && messages[i - 1].role == "user" then messages[i - 1].content else ""
  }

  /**
   * `st.session_state` of a chat page. The loaded collection object is
   * identified by the name it was loaded under; `existing` in the methods
   * below is the set of names the ChromaDB client can load.
   */
  class ChatSession {
    var messages: seq<Message>
    var activeCollection: Option<string>
    var activeCollectionName: Option<string>
    var feedbackGiven: map<nat, string>

    constructor()
      ensures messages == [] && activeCollection == None && activeCollectionName == None
      ensures feedbackGiven == map[]
    {
      messages := [];
      activeCollection := None;
      activeCollectionName := None;
      feedbackGiven := map[];
    }

    /**
     * `set_active_collection`: a truthy name that the client can load
     * becomes active; a falsy name or a failed load clears both fields.
     */
    method SetActiveCollection(collectionName: Option<string>, existing: set<string>)
      modifies this
      ensures Truthy(collectionName) && collectionName.value in existing ==>
        activeCollection == collectionName && activeCollectionName == collectionName
      ensures !(Truthy(collectionName) && collectionName.value in existing) ==>
        activeCollection == None && activeCollectionName == None
      ensures messages == old(messages) && feedbackGiven == old(feedbackGiven)
    {
      if Truthy(collectionName) {
        if collectionName.value in existing {
          activeCollection := collectionName;
          activeCollectionName := collectionName;
        } else {
          activeCollection := None;
          activeCollectionName := None;
        }
      } else {
        activeCollection := None;
        activeCollectionName := None;
      }
    }

    /**
     * `handle_feedback`: the feedback is remembered for message `i` only
     * when the feedback store accepted it (`recorded`).
     */
    method HandleFeedback(i: nat, feedbackType: string, recorded: bool)
      modifies this
      ensures feedbackGiven == if recorded then old(feedbackGiven)[i := feedbackType] else old(feedbackGiven)
      ensures messages == old(messages)
      ensures activeCollection == old(activeCollection) && activeCollectionName == old(activeCollectionName)
    {
      if recorded {
        feedbackGiven := feedbackGiven[i := feedbackType];
      }
    }
  }
}
