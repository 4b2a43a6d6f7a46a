/** Reading an announcement back from its payload, as the listener does. */
module SignalText {
  import opened Prelude
  import opened Signals
  import Uuids

  // ---- The JSON the service writes -----------------------------------------------------

  datatype Value = Str(text: string) | List(items: seq<string>)

  /** Up to the closing quote. Escapes do not occur in what the service writes. */
  function UntilQuote(s: string): (r: Option<(string, string)>)
    ensures r.Some? ==> |r.value.1| < |s|
  {
    if s == "" || s[0] == '\\' then None
    else if s[0] == '"' then Some(("", s[1..]))
    else
      match UntilQuote(s[1..])
      case Some((text, rest)) => Some(([s[0]] + text, rest))
      case None => None
  }

  function TakeString(s: string): (r: Option<(string, string)>)
    ensures r.Some? ==> |r.value.1| < |s|
  {
    if s != "" && s[0] == '"' then UntilQuote(s[1..]) else None
  }

  /** The items of a list that is not empty, past its closing bracket. */
  function TakeItems(s: string): (r: Option<(seq<string>, string)>)
    ensures r.Some? ==> |r.value.1| < |s|
    decreases |s|
  {
    match TakeString(s)
    case None => None
    case Some((item, rest)) =>
      if rest != "" && rest[0] == ']' then Some(([item], rest[1..]))
      else if rest != "" && rest[0] == ',' then
        match TakeItems(rest[1..])
        case Some((items, more)) => Some(([item] + items, more))
        case None => None
      else None
  }

  function TakeValue(s: string): (r: Option<(Value, string)>)
    ensures r.Some? ==> |r.value.1| < |s|
  {
    if s != "" && s[0] == '[' then
      if |s| > 1 && s[1] == ']' then Some((List([]), s[2..])) else
        match TakeItems(s[1..])
        case Some((items, rest)) => Some((List(items), rest))
        case None => None
    else
      match TakeString(s)
      case Some((text, rest)) => Some((Str(text), rest))
      case None => None
  }

  /** One member: its name, its value and what follows. */
  function TakeMember(s: string): (r: Option<(string, Value, string)>)
    ensures r.Some? ==> |r.value.2| < |s|
  {
    match TakeString(s)
    case None => None
    case Some((name, rest)) =>
      if rest == "" || rest[0] != ':' then None else
        match TakeValue(rest[1..])
        case None => None
        case Some((value, more)) => Some((name, value, more))
  }

  /** The members up to the end of the text; a name given twice is an error. */
  function TakeMembers(s: string, fields: map<string, Value>): Option<map<string, Value>>
    decreases |s|
  {
    match TakeMember(s)
    case None => None
    case Some((name, value, more)) =>
      if name in fields then None
      else if more == "}" then Some(fields[name := value])
      else if more != "" && more[0] == ',' then TakeMembers(more[1..], fields[name := value])
      else None
  }

  // ---- The signal in it ------------------------------------------------------------------

  function UuidIn(fields: map<string, Value>, name: string): Option<Uuid> {
    if name in fields && fields[name].Str? then Uuids.Parse(fields[name].text) else None
  }

  function UuidsIn(fields: map<string, Value>, name: string): Option<seq<Uuid>> {
    if name in fields && fields[name].List? then Collect(fields[name].items, Uuids.Parse) else None
  }

  /** By name, in any order, unknown names ignored. */
  function FromFields(fields: map<string, Value>, readInstant: string -> Option<Time>): Option<Signal> {
    match UuidIn(fields, "recipient_id")
    case None => None
    case Some(recipient) =>
      if "type" !in fields then None
      else if fields["type"] == Str("added") then
        match UuidIn(fields, "id")
        case Some(id) => Some(Added(recipient, id))
        case None => None
      else if fields["type"] == Str("read") then
        match (UuidsIn(fields, "ids"), if "read_at" in fields && fields["read_at"].Str?
                                       then readInstant(fields["read_at"].text) else None)
        case (Some(ids), Some(at)) => Some(Read(recipient, ids, at))
        case _ => None
      else if fields["type"] == Str("deleted") then
        match UuidsIn(fields, "ids")
        case Some(ids) => Some(Deleted(recipient, ids))
        case None => None
      else None
  }

  function ReadSignal(text: string, readInstant: string -> Option<Time>): Option<Signal> {
    if text == "" || text[0] != '{' then None else
      match TakeMembers(text[1..], map[])
      case Some(fields) => FromFields(fields, readInstant)
      case None => None
  }

  function Reader(readInstant: string -> Option<Time>): string -> Option<Signal> {
    (text: string) => ReadSignal(text, readInstant)
  }

  // ---- Reading what was written -------------------------------------------------------------

  predicate Plain(text: string) {
    forall i :: 0 <= i < |text| ==> text[i] != '"' && text[i] != '\\'
  }

  lemma UuidTextIsPlain(u: Uuid)
    ensures Plain(Uuids.Text(u))
  {
    var h := Uuids.Hex(u as nat, 32);
    forall i | 0 <= i < |h|
      ensures h[i] != '"' && h[i] != '\\'
    {
      assert Uuids.HexValue(h[i]).Some?;
    }
  }

  lemma {:induction false} UntilQuoteReads(text: string, rest: string)
    requires Plain(text)
    ensures UntilQuote(text + "\"" + rest) == Some((text, rest))
  {
    if text == "" {
      assert ("" + "\"" + rest)[1..] == rest;
    } else {
      UntilQuoteReads(text[1..], rest);
      assert (text + "\"" + rest)[1..] == text[1..] + "\"" + rest;
      assert [text[0]] + text[1..] == text;
    }
  }

  lemma TakeStringReads(text: string, rest: string)
    requires Plain(text)
    ensures TakeString(Quote(text) + rest) == Some((text, rest))
  {
    UntilQuoteReads(text, rest);
    assert (Quote(text) + rest)[1..] == text + "\"" + rest;
  }

  function Texts(ids: seq<Uuid>): (r: seq<string>)
    ensures |r| == |ids| && forall i :: 0 <= i < |r| ==> r[i] == Uuids.Text(ids[i])
  {
    if ids == [] then [] else [Uuids.Text(ids[0])] + Texts(ids[1..])
  }

  lemma LastItemReads(text: string, rest: string)
    requires Plain(text)
    ensures TakeItems(Quote(text) + ("]" + rest)) == Some(([text], rest))
  {
    TakeStringReads(text, "]" + rest);
    assert ("]" + rest)[1..] == rest;
  }

  lemma NextItemReads(text: string, more: string, items: seq<string>, rest: string)
    requires Plain(text) && TakeItems(more) == Some((items, rest))
    ensures TakeItems(Quote(text) + ("," + more)) == Some(([text] + items, rest))
  {
    TakeStringReads(text, "," + more);
    assert ("," + more)[1..] == more;
  }

  lemma {:induction false} TakeItemsReads(ids: seq<Uuid>, rest: string)
    requires ids != []
    ensures TakeItems(IdList(ids) + ("]" + rest)) == Some((Texts(ids), rest))
  {
    UuidTextIsPlain(ids[0]);
    if |ids| == 1 {
      LastItemReads(Uuids.Text(ids[0]), rest);
      assert Texts(ids) == [Uuids.Text(ids[0])];
    } else {
      TakeItemsReads(ids[1..], rest);
      NextItemReads(Uuids.Text(ids[0]), IdList(ids[1..]) + ("]" + rest), Texts(ids[1..]), rest);
      Regroup(Quoted(ids[0]), ",", IdList(ids[1..]), "]" + rest);
      assert Texts(ids) == [Uuids.Text(ids[0])] + Texts(ids[1..]);
    }
  }

  lemma Regroup(a: string, b: string, c: string, d: string)
    ensures (a + b + c) + d == a + (b + (c + d))
    ensures (a + b) + c + d == a + (b + c + d)
  {
  }

  lemma BracketedReads(body: string, items: seq<string>, rest: string)
    requires body != "" && body[0] != ']' && TakeItems(body) == Some((items, rest))
    ensures TakeValue("[" + body) == Some((List(items), rest))
  {
    assert ("[" + body)[1..] == body;
  }

  lemma EmptyListReads(rest: string)
    ensures TakeValue("[" + ("]" + rest)) == Some((List([]), rest))
  {
    assert ("[" + ("]" + rest))[2..] == rest;
  }

  lemma ListReads(ids: seq<Uuid>, rest: string)
    ensures TakeValue("[" + (IdList(ids) + ("]" + rest))) == Some((List(Texts(ids)), rest))
  {
    if ids == [] {
      EmptyListReads(rest);
      assert IdList(ids) + ("]" + rest) == "]" + rest;
    } else {
      TakeItemsReads(ids, rest);
      FirstCharOfList(ids);
      BracketedReads(IdList(ids) + ("]" + rest), Texts(ids), rest);
    }
  }

  lemma FirstCharOfList(ids: seq<Uuid>)
    requires ids != []
    ensures IdList(ids) != "" && IdList(ids)[0] == '"'
  {
  }

  lemma StringReads(text: string, rest: string)
    requires Plain(text)
    ensures TakeValue(Quote(text) + rest) == Some((Str(text), rest))
  {
    TakeStringReads(text, rest);
  }

  lemma MemberTaken(name: string, value: Value, text: string, after: string)
    requires Plain(name) && TakeValue(text + after) == Some((value, after))
    ensures TakeMember(Quote(name) + ":" + text + after) == Some((name, value, after))
  {
    var rest := ":" + text + after;
    TakeStringReads(name, rest);
    assert Quote(name) + ":" + text + after == Quote(name) + rest;
    assert rest[1..] == text + after;
  }

  /** A member that others follow. */
  lemma MemberReads(name: string, value: Value, text: string, more: string, fields: map<string, Value>)
    requires Plain(name) && name !in fields && TakeValue(text + ("," + more)) == Some((value, "," + more))
    ensures TakeMembers(Quote(name) + ":" + text + ("," + more), fields) == TakeMembers(more, fields[name := value])
  {
    MemberTaken(name, value, text, "," + more);
    assert ("," + more)[0] == ',' && ("," + more)[1..] == more;
  }

  /** The last member. */
  lemma LastMemberReads(name: string, value: Value, text: string, fields: map<string, Value>)
    requires Plain(name) && name !in fields && TakeValue(text + "}") == Some((value, "}"))
    ensures TakeMembers(Quote(name) + ":" + text + "}", fields) == Some(fields[name := value])
  {
    MemberTaken(name, value, text, "}");
  }

  function Opened(kind: string, recipient: Uuid): map<string, Value> {
    map["type" := Str(kind), "recipient_id" := Str(Uuids.Text(recipient))]
  }

  lemma OpeningGoesOn(kind: string, recipient: Uuid, more: string)
    ensures Opening(kind, recipient) + more != "" && (Opening(kind, recipient) + more)[0] == '{'
    ensures (Opening(kind, recipient) + more)[1..]
            == Quote("type") + ":" + Quote(kind)
               + ("," + (Quote("recipient_id") + ":" + Quoted(recipient) + ("," + more)))
  {
    var a, b := Quote("type") + ":" + Quote(kind), Quote("recipient_id") + ":" + Quoted(recipient);
    assert Opening(kind, recipient) == "{" + (a + "," + (b + ","));
    assert ("{" + (a + "," + (b + ",")) + more)[1..] == a + ("," + (b + ("," + more)));
  }

  lemma OpeningReads(kind: string, recipient: Uuid, more: string)
    requires Plain(kind)
    ensures TakeMembers((Opening(kind, recipient) + more)[1..], map[]) == TakeMembers(more, Opened(kind, recipient))
  {
    var second := Quote("recipient_id") + ":" + Quoted(recipient) + ("," + more);
    OpeningGoesOn(kind, recipient, more);
    StringReads(kind, "," + second);
    MemberReads("type", Str(kind), Quote(kind), second, map[]);
    RecipientReads(kind, recipient, more);
  }

  lemma RecipientReads(kind: string, recipient: Uuid, more: string)
    ensures TakeMembers(Quote("recipient_id") + ":" + Quoted(recipient) + ("," + more), map["type" := Str(kind)])
            == TakeMembers(more, Opened(kind, recipient))
  {
    UuidTextIsPlain(recipient);
    StringReads(Uuids.Text(recipient), "," + more);
    assert "type" != "recipient_id" by {
      assert |"type"| == 4 && |"recipient_id"| == 12;
    }
    MemberReads("recipient_id", Str(Uuids.Text(recipient)), Quoted(recipient), more, map["type" := Str(kind)]);
    assert map["type" := Str(kind)]["recipient_id" := Str(Uuids.Text(recipient))] == Opened(kind, recipient);
  }

  lemma UuidReads(fields: map<string, Value>, name: string, u: Uuid)
    requires name in fields && fields[name] == Str(Uuids.Text(u))
    ensures UuidIn(fields, name) == Some(u)
  {
    Uuids.ParseText(u);
  }

  lemma UuidsRead(fields: map<string, Value>, name: string, ids: seq<Uuid>)
    requires name in fields && fields[name] == List(Texts(ids))
    ensures UuidsIn(fields, name) == Some(ids)
  {
    forall i | 0 <= i < |ids|
      ensures Uuids.Parse(Texts(ids)[i]) == Some(ids[i])
    {
      Uuids.ParseText(ids[i]);
    }
    CollectIs(Texts(ids), Uuids.Parse, ids);
  }

  /** `readInstant` reads what `show` writes, which needs no escape. */
  ghost predicate Inverts(readInstant: string -> Option<Time>, show: Time -> string) {
    forall t :: Plain(show(t)) && readInstant(show(t)) == Some(t)
  }

  function AddedFields(recipient: Uuid, id: Uuid): map<string, Value> {
    Opened("added", recipient)["id" := Str(Uuids.Text(id))]
  }

  function DeletedFields(recipient: Uuid, ids: seq<Uuid>): map<string, Value> {
    Opened("deleted", recipient)["ids" := List(Texts(ids))]
  }

  function ReadFields(recipient: Uuid, ids: seq<Uuid>, at: string): map<string, Value> {
    Opened("read", recipient)["ids" := List(Texts(ids))]["read_at" := Str(at)]
  }

  lemma AddedMembers(recipient: Uuid, id: Uuid)
    ensures TakeMembers(Quote("id") + ":" + Quoted(id) + "}", Opened("added", recipient))
            == Some(AddedFields(recipient, id))
  {
    UuidTextIsPlain(id);
    StringReads(Uuids.Text(id), "}");
    LastMemberReads("id", Str(Uuids.Text(id)), Quoted(id), Opened("added", recipient));
  }

  lemma DeletedMembers(recipient: Uuid, ids: seq<Uuid>)
    ensures TakeMembers(Quote("ids") + ":" + ("[" + (IdList(ids) + "]")) + "}", Opened("deleted", recipient))
            == Some(DeletedFields(recipient, ids))
  {
    var list := "[" + (IdList(ids) + "]");
    ListReads(ids, "}");
    assert list + "}" == "[" + (IdList(ids) + ("]" + "}"));
    LastMemberReads("ids", List(Texts(ids)), list, Opened("deleted", recipient));
  }

  lemma ReadMembers(recipient: Uuid, ids: seq<Uuid>, at: string)
    requires Plain(at)
    ensures TakeMembers(Quote("ids") + ":" + ("[" + (IdList(ids) + "]"))
                        + ("," + (Quote("read_at") + ":" + Quote(at) + "}")), Opened("read", recipient))
            == Some(ReadFields(recipient, ids, at))
  {
    var list, last := "[" + (IdList(ids) + "]"), Quote("read_at") + ":" + Quote(at) + "}";
    var listed := Opened("read", recipient)["ids" := List(Texts(ids))];
    StringReads(at, "}");
    LastMemberReads("read_at", Str(at), Quote(at), listed);
    ListReads(ids, "," + last);
    assert list + ("," + last) == "[" + (IdList(ids) + ("]" + ("," + last)));
    MemberReads("ids", List(Texts(ids)), list, last, Opened("read", recipient));
  }

  /** A text that opens as a signal and goes on with these members. */
  lemma WholeReads(
    kind: string, recipient: Uuid, members: string, fields: map<string, Value>, readInstant: string -> Option<Time>)
    requires Plain(kind) && TakeMembers(members, Opened(kind, recipient)) == Some(fields)
    ensures ReadSignal(Opening(kind, recipient) + members, readInstant) == FromFields(fields, readInstant)
  {
    OpeningGoesOn(kind, recipient, members);
    OpeningReads(kind, recipient, members);
  }

  lemma AddedFromFields(recipient: Uuid, id: Uuid, readInstant: string -> Option<Time>)
    ensures FromFields(AddedFields(recipient, id), readInstant) == Some(Added(recipient, id))
  {
    UuidReads(AddedFields(recipient, id), "recipient_id", recipient);
    UuidReads(AddedFields(recipient, id), "id", id);
  }

  lemma DeletedFromFields(recipient: Uuid, ids: seq<Uuid>, readInstant: string -> Option<Time>)
    ensures FromFields(DeletedFields(recipient, ids), readInstant) == Some(Deleted(recipient, ids))
  {
    UuidReads(DeletedFields(recipient, ids), "recipient_id", recipient);
    UuidsRead(DeletedFields(recipient, ids), "ids", ids);
  }

  lemma ReadFromFields(recipient: Uuid, ids: seq<Uuid>, text: string, at: Time, readInstant: string -> Option<Time>)
    requires readInstant(text) == Some(at)
    ensures FromFields(ReadFields(recipient, ids, text), readInstant) == Some(Read(recipient, ids, at))
  {
    UuidReads(ReadFields(recipient, ids, text), "recipient_id", recipient);
    UuidsRead(ReadFields(recipient, ids, text), "ids", ids);
  }

  lemma AddedText(recipient: Uuid, id: Uuid, show: Time -> string)
    ensures Payload(Added(recipient, id), show) == Opening("added", recipient) + (Quote("id") + ":" + Quoted(id) + "}")
  {
    Regroup(Opening("added", recipient), Quote("id") + ":", Quoted(id), "}");
  }

  lemma DeletedText(recipient: Uuid, ids: seq<Uuid>, show: Time -> string)
    ensures Payload(Deleted(recipient, ids), show)
            == Opening("deleted", recipient) + (Quote("ids") + ":" + ("[" + (IdList(ids) + "]")) + "}")
  {
    RegroupList(Opening("deleted", recipient), Quote("ids"), IdList(ids), "}");
    assert "]" + "}" == "]}";
  }

  lemma ReadText(recipient: Uuid, ids: seq<Uuid>, at: Time, show: Time -> string)
    ensures Payload(Read(recipient, ids, at), show)
            == Opening("read", recipient)
               + (Quote("ids") + ":" + ("[" + (IdList(ids) + "]"))
                  + ("," + (Quote("read_at") + ":" + Quote(show(at)) + "}")))
  {
    var last := Quote("read_at") + ":" + Quote(show(at)) + "}";
    RegroupList(Opening("read", recipient), Quote("ids"), IdList(ids), "," + last);
    assert "]" + ("," + last) == "]," + last;
  }

  lemma RegroupList(opening: string, name: string, list: string, end: string)
    ensures (opening + (name + ":[")) + list + ("]" + end) == opening + (name + ":" + ("[" + (list + "]")) + end)
  {
    assert ":[" == ":" + "[";
  }

  lemma AddedReads(recipient: Uuid, id: Uuid, show: Time -> string, readInstant: string -> Option<Time>)
    ensures ReadSignal(Payload(Added(recipient, id), show), readInstant) == Some(Added(recipient, id))
  {
    AddedText(recipient, id, show);
    AddedMembers(recipient, id);
    WholeReads("added", recipient, Quote("id") + ":" + Quoted(id) + "}", AddedFields(recipient, id), readInstant);
    AddedFromFields(recipient, id, readInstant);
  }

  lemma DeletedReads(recipient: Uuid, ids: seq<Uuid>, show: Time -> string, readInstant: string -> Option<Time>)
    ensures ReadSignal(Payload(Deleted(recipient, ids), show), readInstant) == Some(Deleted(recipient, ids))
  {
    DeletedText(recipient, ids, show);
    DeletedMembers(recipient, ids);
    WholeReads("deleted", recipient, Quote("ids") + ":" + ("[" + (IdList(ids) + "]")) + "}",
               DeletedFields(recipient, ids), readInstant);
    DeletedFromFields(recipient, ids, readInstant);
  }

  lemma ReadReads(
    recipient: Uuid, ids: seq<Uuid>, at: Time, show: Time -> string, readInstant: string -> Option<Time>)
    requires Plain(show(at)) && readInstant(show(at)) == Some(at)
    ensures ReadSignal(Payload(Read(recipient, ids, at), show), readInstant) == Some(Read(recipient, ids, at))
  {
    var last := "," + (Quote("read_at") + ":" + Quote(show(at)) + "}");
    ReadText(recipient, ids, at, show);
    ReadMembers(recipient, ids, show(at));
    WholeReads("read", recipient, Quote("ids") + ":" + ("[" + (IdList(ids) + "]")) + last,
               ReadFields(recipient, ids, show(at)), readInstant);
    ReadFromFields(recipient, ids, show(at), at, readInstant);
  }

  /** What the service announces the listener reads back: the same kind, recipient,
      ids and instant. */
  lemma PayloadReadsBack(s: Signal, show: Time -> string, readInstant: string -> Option<Time>)
    requires Inverts(readInstant, show)
    ensures ReadSignal(Payload(s, show), readInstant) == Some(s)
  {
    match s {
      case Added(recipient, id) => AddedReads(recipient, id, show, readInstant);
      case Deleted(recipient, ids) => DeletedReads(recipient, ids, show, readInstant);
      case Read(recipient, ids, at) =>
        assert Plain(show(at));
        ReadReads(recipient, ids, at, show, readInstant);
    }
  }
}
