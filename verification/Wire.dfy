/** The deliver command on the wire: its JSON form, the permissive decode and the
    refusals of the intake, and the ids recovered for the ledger. */
module Wire {
  import opened Prelude
  import opened RelativeLinks
  import Uuids

  datatype Json =
    | JNull
    | JBool(b: bool)
    | JNumber(n: int)
    | JString(s: string)
    | JArray(items: seq<Json>)
    | JObject(fields: map<string, Json>)

  datatype DeliverNotification = DeliverNotification(
    sourceEventId: Uuid, recipientIds: seq<Uuid>, template: string, payload: Json,
    link: Option<RelativeLink>)

  /** The permissive shape: everything typed except the link, still a bare string. */
  datatype RawDeliver = RawDeliver(
    sourceEventId: Uuid, recipientIds: seq<Uuid>, template: string, payload: Json,
    link: Option<string>)

  datatype Reason =
    | PayloadShapeRejected | RelativeLinkRejected | NoRecipients | TemplateRejected | StorageRejected

  // ---- Publishing ---------------------------------------------------------

  function UuidsToJson(ids: seq<Uuid>): (r: seq<Json>)
    ensures |r| == |ids| && forall i :: 0 <= i < |r| ==> r[i] == JString(Uuids.Text(ids[i]))
  {
    if ids == [] then [] else [JString(Uuids.Text(ids[0]))] + UuidsToJson(ids[1..])
  }

  function ToJson(command: DeliverNotification): Json {
    var required := map[
      "source_event_id" := JString(Uuids.Text(command.sourceEventId)),
      "recipient_ids" := JArray(UuidsToJson(command.recipientIds)),
      "template" := JString(command.template),
      "payload" := command.payload];
    JObject(if command.link.Some? then required["link" := JString(command.link.value)] else required)
  }

  // ---- Decoding -----------------------------------------------------------

  function DecodeUuid(j: Json): Option<Uuid> {
    if j.JString? then Uuids.Parse(j.s) else None
  }

  function DecodeUuids(items: seq<Json>): Option<seq<Uuid>> {
    Collect(items, DecodeUuid)
  }

  function DecodeLink(j: Json): Option<Option<string>> {
    match j
    case JNull => Some(None)
    case JString(s) => Some(Some(s))
    case _ => None
  }

  function DecodeFields(source: Json, recipients: Json, template: Json, payload: Json, link: Json)
    : Option<RawDeliver>
  {
    if !recipients.JArray? || !template.JString? then None else
      match (DecodeUuid(source), DecodeUuids(recipients.items), DecodeLink(link))
      case (Some(id), Some(ids), Some(l)) => Some(RawDeliver(id, ids, template.s, payload, l))
      case _ => None
  }

  predicate HasRequired(fields: map<string, Json>) {
    "source_event_id" in fields && "recipient_ids" in fields && "template" in fields && "payload" in fields
  }

  /** The derived decoder: an object by field name, unknown names ignored, or an
      array by position; a missing link reads as null. */
  function Decode(payload: Json): Option<RawDeliver> {
    match payload
    case JObject(f) =>
      if HasRequired(f)
      then DecodeFields(f["source_event_id"], f["recipient_ids"], f["template"], f["payload"],
                        if "link" in f then f["link"] else JNull)
      else None
    case JArray(a) =>
      if 4 <= |a| <= 5
      then DecodeFields(a[0], a[1], a[2], a[3], if |a| == 5 then a[4] else JNull)
      else None
    case _ => None
  }

  /** A rendering key some renderer could use: not blank, no control character. */
  predicate Renderable(template: string) {
    && (exists i :: 0 <= i < |template| && !IsWhitespace(template[i]))
    && (forall i :: 0 <= i < |template| ==> !IsControl(template[i]))
  }

  function Validate(payload: Json): Result<DeliverNotification, Reason> {
    match Decode(payload)
    case None => Err(PayloadShapeRejected)
    case Some(raw) =>
      if raw.link.Some? && ParseLink(raw.link.value).Err? then Err(RelativeLinkRejected)
      else if raw.recipientIds == [] then Err(NoRecipients)
      else if forall i :: 0 <= i < |raw.template| ==> IsWhitespace(raw.template[i]) then Err(TemplateRejected)
      else if exists i :: 0 <= i < |raw.template| && IsControl(raw.template[i]) then Err(TemplateRejected)
      else
        var link := if raw.link.Some? then Some(ParseLink(raw.link.value).value) else None;
        Ok(DeliverNotification(raw.sourceEventId, raw.recipientIds, raw.template, raw.payload, link))
  }

  // ---- Tracing a refused payload ------------------------------------------

  function TracedSourceEventId(payload: Json): Option<Uuid> {
    if payload.JObject? && "source_event_id" in payload.fields
    then DecodeUuid(payload.fields["source_event_id"])
    else None
  }

  function ReadableIds(items: seq<Json>): seq<Uuid> {
    FilterMap(items, DecodeUuid)
  }

  function TracedRecipientIds(payload: Json): seq<Uuid> {
    if payload.JObject? && "recipient_ids" in payload.fields && payload.fields["recipient_ids"].JArray?
    then ReadableIds(payload.fields["recipient_ids"].items)
    else []
  }

  // ---- What is accepted, and what is refused for what --------------------------------------

  /** Members of other names do not matter. */
  lemma UnknownMembersAreIgnored(fields: map<string, Json>, name: string, value: Json)
    requires name !in {"source_event_id", "recipient_ids", "template", "payload", "link"}
    ensures Decode(JObject(fields[name := value])) == Decode(JObject(fields))
  {
  }

  /** An array is read as the object with its members in the declared order, the
      link possibly left out. */
  lemma PositionsAreNames(source: Json, recipients: Json, template: Json, payload: Json, link: Json)
    ensures Decode(JArray([source, recipients, template, payload, link]))
            == Decode(JObject(map["source_event_id" := source, "recipient_ids" := recipients,
                                  "template" := template, "payload" := payload, "link" := link]))
    ensures Decode(JArray([source, recipients, template, payload]))
            == Decode(JArray([source, recipients, template, payload, JNull]))
  {
    NamesDiffer();
    var fields := map["source_event_id" := source, "recipient_ids" := recipients,
                      "template" := template, "payload" := payload, "link" := link];
    assert fields["source_event_id"] == source && fields["recipient_ids"] == recipients;
    assert fields["template"] == template && fields["payload"] == payload && fields["link"] == link;
  }

  lemma NamesDiffer()
    ensures "source_event_id" != "recipient_ids" && "source_event_id" != "template" && "source_event_id" != "payload"
    ensures "source_event_id" != "link" && "recipient_ids" != "template" && "recipient_ids" != "payload"
    ensures "recipient_ids" != "link" && "template" != "payload" && "template" != "link" && "payload" != "link"
  {
    assert |"source_event_id"| == 15 && |"recipient_ids"| == 13 && |"template"| == 8
           && |"payload"| == 7 && |"link"| == 4;
  }

  /** A null link is a missing one. */
  lemma NullLinkIsNoLink(fields: map<string, Json>)
    requires "link" !in fields
    ensures Decode(JObject(fields["link" := JNull])) == Decode(JObject(fields))
  {
    assert |"source_event_id"| == 15 && |"recipient_ids"| == 13 && |"template"| == 8
           && |"payload"| == 7 && |"link"| == 4;
  }

  /** The decision, in its order: the shape, the link, the recipients, the template;
      an accepted command is what was decoded. */
  lemma ValidationDecides(payload: Json)
    ensures Validate(payload) == Err(PayloadShapeRejected) <==> Decode(payload) == None
    ensures Decode(payload).Some? ==>
      var raw := Decode(payload).value;
      var linked := raw.link.Some?;
      && (Validate(payload) == Err(RelativeLinkRejected) <==> linked && ParseLink(raw.link.value).Err?)
      && (Validate(payload) == Err(NoRecipients)
          <==> (linked ==> ParseLink(raw.link.value).Ok?) && raw.recipientIds == [])
      && (Validate(payload) == Err(TemplateRejected)
          <==> (linked ==> ParseLink(raw.link.value).Ok?) && raw.recipientIds != [] && !Renderable(raw.template))
      && (Validate(payload).Ok? ==>
            var c := Validate(payload).value;
            && c.sourceEventId == raw.sourceEventId && c.recipientIds == raw.recipientIds
            && c.template == raw.template && c.payload == raw.payload
            && raw.link == if c.link.Some? then Some(c.link.value) else None)
  {
  }

  // ---- Results --------------------------------------------------------------

  lemma UuidsRoundTrip(ids: seq<Uuid>)
    ensures DecodeUuids(UuidsToJson(ids)) == Some(ids)
  {
    var items := UuidsToJson(ids);
    forall i | 0 <= i < |items|
      ensures DecodeUuid(items[i]) == Some(ids[i])
    {
      Uuids.ParseText(ids[i]);
    }
    CollectIs(items, DecodeUuid, ids);
  }

  lemma DecodeToJson(command: DeliverNotification)
    ensures Decode(ToJson(command)) == Some(RawDeliver(
      command.sourceEventId, command.recipientIds, command.template, command.payload,
      if command.link.Some? then Some(command.link.value) else None))
  {
    var f := ToJson(command).fields;
    PublishedFields(command);
    UuidsRoundTrip(command.recipientIds);
    Uuids.ParseText(command.sourceEventId);
    assert Decode(ToJson(command))
           == DecodeFields(f["source_event_id"], f["recipient_ids"], f["template"], f["payload"],
                           if "link" in f then f["link"] else JNull);
  }

  lemma PublishedFields(command: DeliverNotification)
    ensures ToJson(command).JObject? && HasRequired(ToJson(command).fields)
    ensures var f := ToJson(command).fields;
      && f["source_event_id"] == JString(Uuids.Text(command.sourceEventId))
      && f["recipient_ids"] == JArray(UuidsToJson(command.recipientIds))
      && f["template"] == JString(command.template) && f["payload"] == command.payload
      && ("link" in f <==> command.link.Some?)
      && (command.link.Some? ==> f["link"] == JString(command.link.value))
  {
    assert |"source_event_id"| == 15 && |"recipient_ids"| == 13 && |"template"| == 8
           && |"payload"| == 7 && |"link"| == 4;
  }

  /** What a typed producer publishes is accepted unchanged exactly when it names
      a recipient and a renderable template; otherwise the missing one is named. */
  lemma PublishValidateRoundTrip(command: DeliverNotification)
    ensures Validate(ToJson(command)) == Ok(command)
            <==> command.recipientIds != [] && Renderable(command.template)
    ensures command.recipientIds == [] ==> Validate(ToJson(command)) == Err(NoRecipients)
    ensures command.recipientIds != [] && !Renderable(command.template)
            ==> Validate(ToJson(command)) == Err(TemplateRejected)
  {
    DecodeToJson(command);
    if command.link.Some? {
      ParseLinkIsTotalOnLinks(command.link.value);
    }
  }

  /** Whatever encoding was accepted, republishing the accepted command is
      accepted with the same meaning. */
  lemma AcceptedCommandsRepublish(payload: Json)
    requires Validate(payload).Ok?
    ensures Validate(ToJson(Validate(payload).value)) == Validate(payload)
  {
    var command := Validate(payload).value;
    assert exists i :: 0 <= i < |command.template| && !IsWhitespace(command.template[i]);
    PublishValidateRoundTrip(command);
  }

  /** Whatever else the list holds, the ids that can be read are all kept, in their
      order, and nothing is made of the rest. */
  lemma ReadableIdsSkipTheRest(items: seq<Json>, j: Json, more: seq<Json>)
    ensures ReadableIds(items + [j] + more)
            == ReadableIds(items) + (if DecodeUuid(j).Some? then [DecodeUuid(j).value] else []) + ReadableIds(more)
  {
    FilterMapConcat(items + [j], more, DecodeUuid);
    FilterMapConcat(items, [j], DecodeUuid);
    FilterMapCons(j, [], DecodeUuid);
    assert [j] + [] == [j];
  }

  /** What is traced of an object: its readable id, if it has one under that name,
      and the readable ids of its list, if it has one. */
  lemma TracesWhatIsReadable(fields: map<string, Json>)
    ensures TracedSourceEventId(JObject(fields)).Some?
            <==> "source_event_id" in fields && fields["source_event_id"].JString?
                 && Uuids.Parse(fields["source_event_id"].s).Some?
    ensures TracedRecipientIds(JObject(fields))
            == if "recipient_ids" in fields && fields["recipient_ids"].JArray?
               then ReadableIds(fields["recipient_ids"].items) else []
  {
  }

  /** Over payloads that decode, the ledger's ids are the decoded ids, in order,
      exactly when the payload is an object: an array-encoded command decodes but
      traces nothing. */
  lemma TraceNamesTheDecodedIds(payload: Json)
    requires Decode(payload).Some?
    ensures (&& TracedSourceEventId(payload) == Some(Decode(payload).value.sourceEventId)
             && TracedRecipientIds(payload) == Decode(payload).value.recipientIds)
            <==> payload.JObject?
    ensures !payload.JObject? ==> TracedSourceEventId(payload).None? && TracedRecipientIds(payload) == []
  {
    if payload.JObject? {
      CollectIsFilterMap(payload.fields["recipient_ids"].items, DecodeUuid);
    }
  }

  /** The excluded family is inhabited, by commands refused for their link. */
  lemma ArrayEncodedRefusalIsUntraced(source: Uuid, recipient: Uuid)
    ensures var payload := JArray([JString(Uuids.Text(source)), JArray([JString(Uuids.Text(recipient))]),
                                   JString("t"), JNull, JString("")]);
            && Decode(payload).Some? && Decode(payload).value.recipientIds == [recipient]
            && Validate(payload) == Err(RelativeLinkRejected) && TracedRecipientIds(payload) == []
  {
    Uuids.ParseText(source);
    Uuids.ParseText(recipient);
    var ids := [JString(Uuids.Text(recipient))];
    UuidsRoundTrip([recipient]);
    assert UuidsToJson([recipient]) == ids;
  }
}
