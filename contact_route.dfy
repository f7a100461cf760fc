/** The decision logic of app/api/contact/route.ts: a request without name,
    phone or email is refused, a server without Telegram credentials answers
    in development mode, and otherwise the request is formatted as a message
    for the Telegram Bot API and the answer follows the upstream result. */
module ContactRoute {
  import opened Wrappers
  import opened Text

  /** The fields read from the JSON body; `None` when a field is absent. */
  datatype Submission = Submission(name: Option<string>, phone: Option<string>, email: Option<string>, message: Option<string>)

  /** `TELEGRAM_BOT_TOKEN` and `TELEGRAM_CHAT_ID`; `None` when unset. */
  datatype Env = Env(botToken: Option<string>, chatId: Option<string>)

  /** JavaScript truthiness of an optional string: set and not empty. */
  predicate Truthy(v: Option<string>) {
    v.Some? && v.value != ""
  }

  /** The JSON bodies the route answers with. */
  datatype Body = Failure(error: string) | Success(message: Option<string>)

  datatype Reply = Reply(status: int, body: Body)

  /** The `sendMessage` call: bot token, chat id and text. */
  datatype TelegramCall = TelegramCall(botToken: string, chatId: string, text: string)

  /** What a request produces: the reply and the upstream call made, if any. */
  datatype Outcome = Outcome(reply: Reply, call: Option<TelegramCall>)

  const MissingFields := "Все обязательные поля должны быть заполнены"
  const DevModeNotice := "Заявка получена (dev mode)"
  const SendError := "Ошибка при отправке заявки"

  /** The lines of the message before `trim`: a blank first line, the
      heading, one line each for name, phone and email, the comment line
      (empty for a falsy comment), a blank line, and the date line, followed
      by a newline and the indentation that `trim` removes. */
  const Title := "\U{1F195} Новая заявка с сайта CROWN LINE PROPERTY\n\n"
  const Clock := "\n\n⏰"

  function NameLine(name: string): string {
    "\U{1F464} Имя: " + name + "\n"
  }

  function PhoneLine(phone: string): string {
    "\U{1F4DE} Телефон: " + phone + "\n"
  }

  function EmailLine(email: string): string {
    "\U{1F4E7} Email: " + email + "\n"
  }

  function CommentLine(message: Option<string>): (r: string)
    ensures r == "" <==> !Truthy(message)
  {
    if Truthy(message) then "\U{1F4AC} Сообщение: " + message.value else ""
  }

  /** Everything from the heading to the clock sign in front of the date;
      it starts and ends with a character that is not white space. */
  function Heading(name: string, phone: string, email: string, message: Option<string>): (r: string)
    ensures r != [] && !IsSpace(r[0]) && !IsSpace(r[|r| - 1])
  {
    var fields := NameLine(name) + PhoneLine(phone) + EmailLine(email) + CommentLine(message);
    assert Title[0] == '\U{1F195}' && Clock[|Clock| - 1] == '⏰';
    SolidEnds(Title, fields, Clock);
    Title + fields + Clock
  }

  lemma SolidEnds(a: string, b: string, c: string)
    requires a != [] && c != []
    ensures (a + b + c)[0] == a[0] && (a + b + c)[|a + b + c| - 1] == c[|c| - 1]
  {
  }

  /** `date` is the Dubai time of the request as `toLocaleString('ru-RU')`
      renders it. */
  function Untrimmed(name: string, phone: string, email: string, message: Option<string>, date: string): string {
    "\n" + Heading(name, phone, email, message) + (" " + date + "\n    ")
  }

  /** The text sent to Telegram: the template with its leading newline
      removed and its trailing white space trimmed, so it starts with the
      whole heading up to the clock sign and the rest is the start of the
      date line. */
  function MessageText(name: string, phone: string, email: string, message: Option<string>, date: string): (r: string)
    ensures StartsWith(r, Heading(name, phone, email, message))
    ensures StartsWith(Heading(name, phone, email, message) + (" " + date + "\n    "), r)
  {
    var h := Heading(name, phone, email, message);
    TrimmedTemplate(h, " " + date + "\n    ");
    Trim(Untrimmed(name, phone, email, message, date))
  }

  /** `trim` of a newline, a part that starts and ends with a character that
      is not white space, and a tail removes the newline, keeps the part and
      keeps a prefix of the tail. */
  lemma TrimmedTemplate(h: string, tail: string)
    requires h != [] && !IsSpace(h[0]) && !IsSpace(h[|h| - 1])
    ensures StartsWith(Trim("\n" + h + tail), h)
    ensures StartsWith(h + tail, Trim("\n" + h + tail))
  {
    var s := "\n" + h + tail;
    assert s[1..] == h + tail;
    assert TrimStart(s) == TrimStart(h + tail);
    TrimEndKeepsSolidPrefix(h, tail);
  }

  /** The text contains the name, phone and email lines, and the comment
      line when the comment is truthy; a falsy comment leaves the email line
      directly in front of the blank line and the clock sign. */
  lemma MessageTextContents(name: string, phone: string, email: string, message: Option<string>, date: string)
    ensures Contains(MessageText(name, phone, email, message, date), NameLine(name))
    ensures Contains(MessageText(name, phone, email, message, date), PhoneLine(phone))
    ensures Contains(MessageText(name, phone, email, message, date), EmailLine(email))
    ensures Truthy(message) ==> Contains(MessageText(name, phone, email, message, date), CommentLine(message) + Clock)
    ensures !Truthy(message) ==> Contains(MessageText(name, phone, email, message, date), EmailLine(email) + Clock)
  {
    var text := MessageText(name, phone, email, message, date);
    var h := Heading(name, phone, email, message);
    var rest := text[|h|..];
    PrefixSplit(text, h);
    Pieces(text, Title, NameLine(name), PhoneLine(phone), EmailLine(email), CommentLine(message), Clock, rest);
  }

  lemma PrefixSplit(s: string, p: string)
    requires StartsWith(s, p)
    ensures s == p + s[|p|..]
  {
  }

  /** Each line of a text that starts with the heading's pieces in a row is
      part of it. */
  lemma Pieces(text: string, t: string, n: string, p: string, e: string, c: string, k: string, rest: string)
    requires text == t + (n + p + e + c) + k + rest
    ensures Contains(text, n) && Contains(text, p) && Contains(text, e) && Contains(text, c + k)
    ensures c == "" ==> Contains(text, e + k)
  {
    FieldPieces(text, t, n, p, e + c + k + rest);
    assert text == (t + n + p) + e + (c + k + rest);
    ContainsInfix(t + n + p, e, c + k + rest);
    CommentPieces(text, t + n + p, e, c, k, rest);
  }

  lemma FieldPieces(text: string, t: string, n: string, p: string, rest: string)
    requires text == t + n + p + rest
    ensures Contains(text, n) && Contains(text, p)
  {
    assert text == t + n + (p + rest);
    ContainsInfix(t, n, p + rest);
    ContainsInfix(t + n, p, rest);
  }

  lemma CommentPieces(text: string, a: string, e: string, c: string, k: string, rest: string)
    requires text == a + e + (c + k + rest)
    ensures Contains(text, c + k)
    ensures c == "" ==> Contains(text, e + k)
  {
    assert text == (a + e) + (c + k) + rest;
    ContainsInfix(a + e, c + k, rest);
    if c == "" {
      assert text == a + (e + k) + rest;
      ContainsInfix(a, e + k, rest);
    }
  }

  /** `POST`. `body` is the decoded request body: `None` when
      `request.json()` throws or yields `null` (destructuring `null` throws
      too); any other body that is not an object (an array, a string, a
      number, a boolean) destructures to missing fields and is
      `Some(Submission(None, None, None, None))`, which is refused with 400.
      `upstreamOk` is whether the Telegram call answered with an ok status,
      and matters only when that call is made. */
  function Post(body: Option<Submission>, env: Env, date: string, upstreamOk: bool): (r: Outcome)
    ensures body.None? ==> r == Outcome(Reply(500, Failure(SendError)), None)
    ensures body.Some? && !(Truthy(body.value.name) && Truthy(body.value.phone) && Truthy(body.value.email))
      ==> r == Outcome(Reply(400, Failure(MissingFields)), None)
    ensures r.call.Some? <==>
      (body.Some? && Truthy(body.value.name) && Truthy(body.value.phone) && Truthy(body.value.email)
       && Truthy(env.botToken) && Truthy(env.chatId))
    ensures r.reply.status == 200 <==> r.reply.body.Success?
    ensures r.call.Some? ==> r.reply == (if upstreamOk then Reply(200, Success(None)) else Reply(500, Failure(SendError)))
  {
    match body
    case None => Outcome(Reply(500, Failure(SendError)), None)
    case Some(sub) =>
      if !Truthy(sub.name) || !Truthy(sub.phone) || !Truthy(sub.email) then
        Outcome(Reply(400, Failure(MissingFields)), None)
      else if !Truthy(env.botToken) || !Truthy(env.chatId) then
        Outcome(Reply(200, Success(Some(DevModeNotice))), None)
      else
        var text := MessageText(sub.name.value, sub.phone.value, sub.email.value, sub.message, date);
        var call := TelegramCall(env.botToken.value, env.chatId.value, text);
        if upstreamOk then Outcome(Reply(200, Success(None)), Some(call))
        else Outcome(Reply(500, Failure(SendError)), Some(call))
  }

  /** The fields are checked before the credentials: a request missing one
      of them is refused the same way whatever the environment, the date or
      the upstream result. */
  lemma ValidationFirst(sub: Submission, env1: Env, env2: Env, date1: string, date2: string, ok1: bool, ok2: bool)
    requires !Truthy(sub.name) || !Truthy(sub.phone) || !Truthy(sub.email)
    ensures Post(Some(sub), env1, date1, ok1) == Post(Some(sub), env2, date2, ok2)
    ensures Post(Some(sub), env1, date1, ok1).reply.status == 400
  {
  }

  /** With all three fields present and a credential missing the request is
      accepted in development mode, and nothing is sent. */
  lemma DevModeAnswer(sub: Submission, env: Env, date: string, ok: bool)
    requires Truthy(sub.name) && Truthy(sub.phone) && Truthy(sub.email)
    requires !Truthy(env.botToken) || !Truthy(env.chatId)
    ensures Post(Some(sub), env, date, ok) == Outcome(Reply(200, Success(Some(DevModeNotice))), None)
  {
  }

  /** A message that is sent carries the token and chat id from the
      environment and a text with the submitted name, phone and email. */
  lemma SentMessage(sub: Submission, env: Env, date: string, ok: bool)
    requires Post(Some(sub), env, date, ok).call.Some?
    ensures Post(Some(sub), env, date, ok).call.value.botToken == env.botToken.value
    ensures Post(Some(sub), env, date, ok).call.value.chatId == env.chatId.value
    ensures Contains(Post(Some(sub), env, date, ok).call.value.text, NameLine(sub.name.value))
    ensures Contains(Post(Some(sub), env, date, ok).call.value.text, PhoneLine(sub.phone.value))
    ensures Contains(Post(Some(sub), env, date, ok).call.value.text, EmailLine(sub.email.value))
  {
    MessageTextContents(sub.name.value, sub.phone.value, sub.email.value, sub.message, date);
  }
}
