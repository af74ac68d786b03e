/** The comment screen of one fact: posting a comment and listing the stored ones.

    The signed-in user, the clock, the generated UUID and whether encoding the comment
    throws are parameters. A fetched document is `Some(comment)` when it decodes. */
module CommentScreen {
  import opened Wrappers
  import opened Seqs
  import opened Text
  import opened CommentModel

  /** The signed-in account as the screen sees it. */
  datatype AuthUser = AuthUser(uid: string, email: Option<string>)

  /** One document write: where it goes and what it stores. */
  datatype Write = Write(factID: string, commentID: string, comment: Comment)

  /** What a press of Send does: the write issued (if any), the text left in the field,
      and whether the list is fetched again. */
  datatype SendOutcome = SendOutcome(write: Option<Write>, fieldText: Option<string>, refetch: bool)

  /** The comment a post stores: the author's email (or "Anonymous"), the text as typed,
      the current time, and no likes. */
  function NewComment(text: string, user: AuthUser, now: int): (c: Comment)
    ensures c.commentText == text && c.timestamp == now
    ensures c.username == user.email.GetOr("Anonymous")
    ensures c.likeCount == 0 && c.likedByCurrentUser == Some(false) && c.id.None?
  {
    Comment(None, user.email.GetOr("Anonymous"), text, now, 0, Some(false))
  }

  /** `sendComment`: nothing happens unless there is non-empty text and a signed-in user.
      Otherwise a comment goes under a fresh UUID; if issuing the write does not throw the
      field is cleared and the list refetched, and if it throws the text stays. */
  function SendComment(factID: string, fieldText: Option<string>, user: Option<AuthUser>,
                       commentID: string, now: int, writeThrows: bool): (r: SendOutcome)
    ensures r.write.Some? <==> fieldText.Some? && |fieldText.value| > 0 && user.Some? && !writeThrows
    ensures r.write.Some? ==>
      && r.write.value.factID == factID && r.write.value.commentID == commentID
      && r.write.value.comment == NewComment(fieldText.value, user.value, now)
    ensures r.refetch <==> r.write.Some?
    ensures r.write.Some? ==> r.fieldText == Some("")
    ensures r.write.None? ==> r.fieldText == fieldText
  {
    if fieldText.None? || |fieldText.value| == 0 || user.None? then SendOutcome(None, fieldText, false)
    else if writeThrows then SendOutcome(None, fieldText, false)
    else SendOutcome(Some(Write(factID, commentID, NewComment(fieldText.value, user.value, now))), Some(""), true)
  }

  /** The text is posted untrimmed: a comment of nothing but blanks is written as typed,
      although it trims to nothing. */
  lemma BlankCommentAccepted(factID: string, text: string, user: AuthUser, commentID: string, now: int)
    requires |text| > 0 && AllWhitespace(text)
    ensures var r := SendComment(factID, Some(text), Some(user), commentID, now, false);
      r.write.Some? && r.write.value.comment.commentText == text
    ensures Trim(text) == []
  {
    TrimEmptyIff(text);
  }

  /** Each comment back in the document slot it was decoded from. */
  function Wrapped(cs: seq<Comment>): (r: seq<Option<Comment>>)
    ensures |r| == |cs| && forall i :: 0 <= i < |cs| ==> r[i] == Some(cs[i])
  {
    seq(|cs|, i requires 0 <= i < |cs| => Some(cs[i]))
  }

  /** The documents that decode, in query order. */
  function Decodable(docs: seq<Option<Comment>>): (r: seq<Comment>)
    ensures |r| <= |docs|
    ensures forall c :: c in r <==> Some(c) in docs
    ensures forall c :: multiset(r)[c] == multiset(docs)[Some(c)]
    ensures IsSubseq(Wrapped(r), docs)
  {
    if |docs| == 0 then []
    else
      var rest := Decodable(docs[1..]);
      assert docs == [docs[0]] + docs[1..];
      ConsCounts(docs[0], docs[1..], rest);
      ConsOrder(docs[0], docs[1..], rest);
      Cons(docs[0], rest)
  }

  /** The comments decoded from one more document in front. */
  function Cons(d: Option<Comment>, rest: seq<Comment>): seq<Comment> {
    if d.Some? then [d.value] + rest else rest
  }

  /** One more document in front keeps the decoded list's counts, and so its members. */
  lemma ConsCounts(d: Option<Comment>, tail: seq<Option<Comment>>, rest: seq<Comment>)
    requires forall c :: multiset(rest)[c] == multiset(tail)[Some(c)]
    ensures forall c :: multiset(Cons(d, rest))[c] == multiset([d] + tail)[Some(c)]
    ensures forall c :: c in Cons(d, rest) <==> Some(c) in [d] + tail
  {
    forall c ensures c in Cons(d, rest) <==> Some(c) in [d] + tail {
      assert c in Cons(d, rest) <==> multiset(Cons(d, rest))[c] > 0;
      assert Some(c) in [d] + tail <==> multiset([d] + tail)[Some(c)] > 0;
    }
  }

  /** One more document in front keeps the decoded list in query order. */
  lemma ConsOrder(d: Option<Comment>, tail: seq<Option<Comment>>, rest: seq<Comment>)
    requires IsSubseq(Wrapped(rest), tail)
    ensures IsSubseq(Wrapped(Cons(d, rest)), [d] + tail)
  {
    var docs := [d] + tail;
    assert docs[1..] == tail;
    if d.Some? {
      var w := Wrapped([d.value] + rest);
      assert w[0] == docs[0] && w[1..] == Wrapped(rest);
    } else {
      assert |rest| == 0 || Wrapped(rest)[0] != docs[0];
    }
  }

  /** `fetchComments`: a snapshot replaces the list with its decodable documents; a failed
      query leaves the list as it was. */
  function FetchComments(current: seq<Comment>, snapshot: Option<seq<Option<Comment>>>): (r: seq<Comment>)
    ensures snapshot.None? ==> r == current
    ensures snapshot.Some? ==> r == Decodable(snapshot.value)
  {
    match snapshot
    case None => current
    case Some(docs) => Decodable(docs)
  }

  /** The decodable documents of a query are newest first, as the query orders them. */
  ghost predicate NewestFirst(cs: seq<Comment>) {
    forall i, j :: 0 <= i < j < |cs| ==> cs[i].timestamp >= cs[j].timestamp
  }

  ghost predicate DocsNewestFirst(docs: seq<Option<Comment>>) {
    forall i, j :: 0 <= i < j < |docs| && docs[i].Some? && docs[j].Some? ==>
      docs[i].value.timestamp >= docs[j].value.timestamp
  }

  /** A comment that was decoded came from one of the documents. */
  lemma DecodedFrom(docs: seq<Option<Comment>>, c: Comment)
    requires c in Decodable(docs)
    ensures exists k :: 0 <= k < |docs| && docs[k] == Some(c)
  {
  }

  /** Dropping undecodable documents keeps the timestamp-descending order. */
  lemma {:induction false} DecodableNewestFirst(docs: seq<Option<Comment>>)
    requires DocsNewestFirst(docs)
    ensures NewestFirst(Decodable(docs))
  {
    if |docs| > 0 {
      var tail := docs[1..];
      TailNewestFirst(docs);
      DecodableNewestFirst(tail);
      if docs[0].Some? {
        var rest := Decodable(tail);
        forall j | 0 <= j < |rest| ensures docs[0].value.timestamp >= rest[j].timestamp {
          DecodedFrom(tail, rest[j]);
          var k :| 0 <= k < |tail| && tail[k] == Some(rest[j]);
          assert docs[k + 1] == Some(rest[j]);
        }
        PrependNewest(docs[0].value, rest);
      }
    }
  }

  lemma TailNewestFirst(docs: seq<Option<Comment>>)
    requires |docs| > 0 && DocsNewestFirst(docs)
    ensures DocsNewestFirst(docs[1..])
  {
    var tail := docs[1..];
    forall i, j | 0 <= i < j < |tail| && tail[i].Some? && tail[j].Some?
      ensures tail[i].value.timestamp >= tail[j].value.timestamp {
      assert tail[i] == docs[i + 1] && tail[j] == docs[j + 1];
    }
  }

  lemma PrependNewest(head: Comment, rest: seq<Comment>)
    requires NewestFirst(rest)
    requires forall j :: 0 <= j < |rest| ==> head.timestamp >= rest[j].timestamp
    ensures NewestFirst([head] + rest)
  {
    var r := [head] + rest;
    forall i, j | 0 <= i < j < |r| ensures r[i].timestamp >= r[j].timestamp {
      assert r[j] == rest[j - 1];
      if i > 0 { assert r[i] == rest[i - 1]; }
    }
  }
}
