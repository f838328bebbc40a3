/**
 * `send_message` (main.py:195-241): the caption it builds, the Bot API call it
 * chooses (edit an existing caption or send a new photo), and how it turns the
 * HTTP reply into a message id or an exception. The HTTP transport itself is
 * not modelled: the reply is an input.
 */
module Publisher {
  import opened Wrappers
  import Text
  import Seqs

  /** The `TelegramMessage` dataclass (main.py:50-56). */
  datatype TelegramMessage = TelegramMessage(title: string, link: string, tags: seq<string>,
                                             description: string, image: string)

  /**
   * The separator after the hashtags and the icon before the link, exactly as
   * the characters stand in main.py:200 and main.py:207 (the Windows-1252
   * reading of the UTF-8 bytes of an em dash and of a newspaper emoji).
   */
  const Dash: string := "\U{00E2}\U{20AC}\U{201D} "
  const Newspaper: string := "\U{00F0}\U{0178}\U{201C}\U{00B0}"

  /** Python truthiness of the optional message id: `None` and `0` are both false, every other id is true. */
  predicate Truthy(id: Option<int>) {
    id.Some? && id.value != 0
  }

  /** The total length of the tag texts. */
  function TagsLength(tags: seq<string>): nat {
    if tags == [] then 0 else TagsLength(tags[..|tags| - 1]) + |tags[|tags| - 1]|
  }

  /**
   * `f'#{tag} '` for each tag, in order: one `#` and one space per tag around the
   * tag texts, opening with a `#` and closing with a space.
   */
  function Hashtags(tags: seq<string>): (r: string)
    ensures |r| == 2 * |tags| + TagsLength(tags)
    ensures tags != [] ==> r[0] == '#' && r[|r| - 1] == ' '
  {
    if tags == [] then []
    else
      var init := Hashtags(tags[..|tags| - 1]);
      assert (init + "#")[0] == if init == [] then '#' else init[0];
      init + "#" + tags[|tags| - 1] + " "
  }

  function TagLine(tags: seq<string>): string {
    if tags == [] then [] else Hashtags(tags) + Dash
  }

  function DescriptionLine(description: string): string {
    if description == [] then [] else "\n\n<i>" + Text.TelegramEscape(description) + "</i>"
  }

  function LinkLine(link: string): string {
    "\n\n" + Newspaper + " <a href=\"" + link + "\">Leggi articolo</a>"
  }

  function EditLine(stamp: string): string {
    "\n\n<i>EDIT: " + stamp + "</i>"
  }

  function TitleLine(title: string): string {
    "<strong>" + Text.TelegramEscape(title) + "</strong>"
  }

  /**
   * The caption of main.py:196-211; `stamp` is the edit time when the call is an
   * edit. It opens with the hashtags (if any) and the escaped title, and closes
   * with the link line, or on an edit with the `EDIT:` line.
   */
  function Caption(m: TelegramMessage, stamp: Option<string>): (r: string)
    ensures TagLine(m.tags) + TitleLine(m.title) <= r
    ensures stamp.None? ==> |LinkLine(m.link)| <= |r| && r[|r| - |LinkLine(m.link)|..] == LinkLine(m.link)
    ensures stamp.Some? ==> |EditLine(stamp.value)| <= |r| && r[|r| - |EditLine(stamp.value)|..] == EditLine(stamp.value)
  {
    var head, desc, link := TagLine(m.tags) + TitleLine(m.title), DescriptionLine(m.description), LinkLine(m.link);
    match stamp
    case None =>
      Framed(head, desc, link);
      head + desc + link
    case Some(t) =>
      Framed(head, desc + link, EditLine(t));
      Seqs.Assoc(head, desc, link);
      head + desc + link + EditLine(t)
  }

  /** `head` opens and `tail` closes `head + mid + tail`. */
  lemma Framed(head: string, mid: string, tail: string)
    ensures head <= head + mid + tail
    ensures (head + mid + tail)[|head + mid + tail| - |tail|..] == tail
  {
    var r := head + mid + tail;
    assert r[..|head|] == head;
    assert r[|r| - |tail|..] == tail;
  }

  /** The two Bot API calls `send_message` can make. */
  datatype Request =
    | EditCaption(messageId: int, caption: string)
    | SendPhoto(caption: string, photo: string)

  /** `if telegram_message_id and updated_time` (main.py:209). */
  predicate IsEdit(id: Option<int>, updatedTime: Option<string>) {
    Truthy(id) && updatedTime.Some? && updatedTime.value != []
  }

  /**
   * The call `send_message` makes (main.py:209-229): an edit of the stored message
   * exactly when the id is truthy and the stamp is not empty, a new photo of the
   * message's image otherwise.
   */
  function MessageRequest(m: TelegramMessage, id: Option<int>, updatedTime: Option<string>): (r: Request)
    ensures r.EditCaption? <==> IsEdit(id, updatedTime)
    ensures r.EditCaption? ==> r.messageId == id.value
    ensures r.SendPhoto? ==> r.photo == m.image
  {
    if IsEdit(id, updatedTime) then EditCaption(id.value, Caption(m, updatedTime))
    else SendPhoto(Caption(m, None), m.image)
  }

  /** What the HTTP layer gives back: a `RequestException` from `requests.post`, or a status with the body's `result.message_id`. */
  datatype Reply = TransportError | Http(status: int, messageId: int)

  /** What `send_message` does with the reply: return a message id (fresh, or the old one on a failed edit) or raise. */
  datatype Outcome = Ok(id: int) | SoftFail(id: int) | Raise

  /**
   * main.py:231-241. A non-200 reply to a call that carried a truthy message id
   * returns that id; any other non-200 reply goes through `raise_for_status`,
   * which raises only for 4xx and 5xx statuses.
   */
  function Decide(reply: Reply, id: Option<int>): (o: Outcome)
    ensures o.Raise? <==> reply.TransportError?
                          || (reply.status != 200 && !Truthy(id) && 400 <= reply.status < 600)
    ensures o.SoftFail? <==> reply.Http? && reply.status != 200 && Truthy(id)
    ensures o.SoftFail? ==> o.id == id.value
    ensures o.Ok? ==> reply.Http? && o.id == reply.messageId
    ensures reply.Http? && reply.status == 200 ==> o == Ok(reply.messageId)
  {
    match reply
    case TransportError => Raise
    case Http(status, messageId) =>
      if status != 200 && Truthy(id) then SoftFail(id.value)
      else if status != 200 && 400 <= status < 600 then Raise
      else Ok(messageId)
  }

  /** A call made without a message id never reports a soft failure: it either raises or yields the body's id. */
  lemma SendNeverSoftFails(reply: Reply)
    ensures Decide(reply, None).Raise? || Decide(reply, None) == Ok(reply.messageId)
  {
  }

  /**
   * `send_message` up to the HTTP call: builds the caption with the loop over the
   * tags and chooses the endpoint, then decides on the reply.
   */
  method SendMessage(m: TelegramMessage, id: Option<int>, updatedTime: Option<string>, reply: Reply)
    returns (req: Request, outcome: Outcome)
    ensures req == MessageRequest(m, id, updatedTime)
    ensures outcome == Decide(reply, id)
  {
    var msg := "";
    if m.tags != [] {
      var i := 0;
      while i < |m.tags|
        invariant 0 <= i <= |m.tags|
        invariant msg == Hashtags(m.tags[..i])
      {
        assert m.tags[..i + 1][..i] == m.tags[..i];
        msg := msg + "#" + m.tags[i] + " ";
        i := i + 1;
      }
      assert m.tags[..i] == m.tags;
      msg := msg + Dash;
    }
    assert msg == TagLine(m.tags);
    msg := msg + ("<strong>" + Text.TelegramEscape(m.title) + "</strong>");
    ghost var before := msg;
    if m.description != [] {
      msg := msg + ("\n\n<i>" + Text.TelegramEscape(m.description) + "</i>");
    }
    assert msg == before + DescriptionLine(m.description);
    msg := msg + ("\n\n" + Newspaper + " <a href=\"" + m.link + "\">Leggi articolo</a>");
    assert msg == Caption(m, None);
    if Truthy(id) && updatedTime.Some? && updatedTime.value != [] {
      msg := msg + ("\n\n<i>EDIT: " + updatedTime.value + "</i>");
      assert msg == Caption(m, updatedTime);
      req := EditCaption(id.value, msg);
    } else {
      req := SendPhoto(msg, m.image);
    }
    outcome := Decide(reply, id);
  }

  /** An edit's caption is the caption of a fresh send followed by the edit stamp. */
  lemma EditCaptionExtendsSendCaption(m: TelegramMessage, id: Option<int>, updatedTime: Option<string>)
    requires IsEdit(id, updatedTime)
    ensures MessageRequest(m, id, updatedTime).messageId == id.value
    ensures MessageRequest(m, id, updatedTime).caption
            == MessageRequest(m, None, None).caption + EditLine(updatedTime.value)
  {
  }

  /** Without a truthy id and a non-empty edit time the call is a new photo carrying the message image. */
  lemma NotEditSendsPhoto(m: TelegramMessage, id: Option<int>, updatedTime: Option<string>)
    requires !IsEdit(id, updatedTime)
    ensures MessageRequest(m, id, updatedTime) == SendPhoto(MessageRequest(m, None, None).caption, m.image)
  {
  }
}
