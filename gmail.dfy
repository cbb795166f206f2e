/** The mail service as the pipeline sees it: the JSON shapes it returns,
    the requests it accepts, candidate enumeration and attachment
    retrieval. */
module Gmail {
  import opened Common

  /** A part's `body`: inline base64url `data`, or an `attachmentId` to fetch. */
  datatype Body = Body(data: Option<string>, attachmentId: Option<string>)

  /** A message part (the payload itself is one); `parts` are its children. */
  datatype Part = Part(filename: Option<string>, body: Option<Body>, parts: Option<seq<Part>>)

  /** The response to `messages().get`. */
  datatype FullMessage = FullMessage(payload: Option<Part>)

  /** One entry of the `messages` list of a `messages().list` response. */
  datatype MessageRef = MessageRef(id: Option<string>)

  datatype ListResponse = ListResponse(messages: Option<seq<MessageRef>>)

  /** The response to `messages().attachments().get`. */
  datatype AttachmentResponse = AttachmentResponse(data: Option<string>)

  /** The authenticated service handle: each request either answers or raises. */
  datatype Service = Service(
    list: string -> Result<ListResponse>,
    get: string -> Result<FullMessage>,
    attachment: (string, string) -> Result<AttachmentResponse>)

  /** A request issued to the service, in the order issued. */
  datatype Call =
    | ListCall(query: string)
    | GetCall(id: string)
    | AttachmentCall(messageId: string, attachmentId: string)

  /** The search query of `get_messages`. */
  function Query(startDate: string, endDate: string): string
  {
    "after:" + startDate + " before:" + endDate + " has:attachment"
  }

  /** Distinct date windows give distinct queries, as long as the dates
      contain no space (a `YYYY/MM/DD` date never does). */
  lemma QueryInjective(s1: string, e1: string, s2: string, e2: string)
    requires ' ' !in s1 && ' ' !in s2
    requires Query(s1, e1) == Query(s2, e2)
    ensures s1 == s2 && e1 == e2
  {
    var q1, q2 := Query(s1, e1), Query(s2, e2);
    assert q1 == "after:" + (s1 + (" before:" + e1 + " has:attachment"));
    assert q2 == "after:" + (s2 + (" before:" + e2 + " has:attachment"));
    assert |s1| == |s2| by {
      if |s1| < |s2| {
        SpaceAfterStart(s1, e1, s2, e2);
        assert false;
      } else if |s2| < |s1| {
        SpaceAfterStart(s2, e2, s1, e1);
        assert false;
      }
    }
    assert s1 == q1[6..6 + |s1|] == q2[6..6 + |s2|] == s2;
    var n := 6 + |s1| + 8;
    assert e1 == q1[n..|q1| - 15];
    assert e2 == q2[n..|q2| - 15];
  }

  /** The character right after the start date of a query is a space, and in
      any query with a longer start date the same position holds a character
      of that date. */
  lemma SpaceAfterStart(s1: string, e1: string, s2: string, e2: string)
    ensures |s1| < |s2| ==> Query(s1, e1)[6 + |s1|] == ' ' && Query(s2, e2)[6 + |s1|] == s2[|s1|]
  {
  }

  /** `get_messages`: one list request with the window's query; a response
      without `messages` means no candidates; a failing request raises. */
  function GetMessages(service: Service, startDate: string, endDate: string): (r: Result<seq<MessageRef>>)
    ensures service.list(Query(startDate, endDate)).Failure? ==>
              r == Failure(service.list(Query(startDate, endDate)).error)
    ensures service.list(Query(startDate, endDate)).Success? ==>
              r.Success? &&
              var listed := service.list(Query(startDate, endDate)).value.messages;
              (listed.Some? ==> r.value == listed.value) && (listed.None? ==> r.value == [])
  {
    match service.list(Query(startDate, endDate))
    case Failure(e) => Failure(e)
    case Success(response) => Success(response.messages.GetOr([]))
  }

  /** The requests `get_attachment_data` issues for `part`: one attachment
      fetch, and only when the body has no inline data but an attachment id. */
  function RetrievalCalls(messageId: string, part: Part): seq<Call>
  {
    match part.body
    case Some(Body(None, Some(attachmentId))) => [AttachmentCall(messageId, attachmentId)]
    case _ => []
  }

  /** `get_attachment_data`: the inline data when present, otherwise the
      `data` of the attachment fetched by message and attachment id. */
  function GetAttachmentData(service: Service, messageId: string, part: Part): (r: Result<string>)
    ensures part.body.Some? && part.body.value.data.Some? ==> r == Success(part.body.value.data.value)
    ensures part.body.None? ==> r == Failure(KeyErrorDetail("body"))
    ensures part.body.Some? && part.body.value.data.None? && part.body.value.attachmentId.None? ==>
              r == Failure(KeyErrorDetail("attachmentId"))
    ensures RetrievalCalls(messageId, part) == [] ==>
              (r.Success? <==> part.body.Some? && part.body.value.data.Some?)
  {
    match part.body
    case None => Failure(KeyErrorDetail("body"))
    case Some(body) =>
      match body.data
      case Some(data) => Success(data)
      case None =>
        match body.attachmentId
        case None => Failure(KeyErrorDetail("attachmentId"))
        case Some(attachmentId) =>
          match service.attachment(messageId, attachmentId)
          case Failure(e) => Failure(e)
          case Success(attachment) =>
            match attachment.data
            case None => Failure(KeyErrorDetail("data"))
            case Some(data) => Success(data)
  }

  /** When `get_attachment_data` issues no request its result does not depend
      on the service at all. */
  lemma NoFetchNoServiceDependence(s1: Service, s2: Service, messageId: string, part: Part)
    requires RetrievalCalls(messageId, part) == []
    ensures GetAttachmentData(s1, messageId, part) == GetAttachmentData(s2, messageId, part)
  {
  }

  /** When it issues a request, that request is for exactly this message and
      the body's attachment id, and the result depends only on that answer:
      the fetch's failure, a missing `data` key, or the fetched `data`. */
  lemma FetchUsesExactIds(service: Service, messageId: string, part: Part)
    requires part.body.Some? && part.body.value.data.None? && part.body.value.attachmentId.Some?
    ensures var attachmentId := part.body.value.attachmentId.value;
            var answer := service.attachment(messageId, attachmentId);
            && RetrievalCalls(messageId, part) == [AttachmentCall(messageId, attachmentId)]
            && GetAttachmentData(service, messageId, part) ==
                 (if answer.Failure? then Failure(answer.error)
                  else if answer.value.data.None? then Failure(KeyErrorDetail("data"))
                  else Success(answer.value.data.value))
  {
  }
}
