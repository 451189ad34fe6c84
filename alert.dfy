/** `send_telegram_alert`: the configuration guard, the message text and the
    `sendMessage` request. The POST itself is a parameter. */
module Alert {
  import opened Common
  import opened PyStr
  import opened Entry

  /** `TELEGRAM_BOT_TOKEN` and `TELEGRAM_CHAT_ID` as read from the environment. */
  datatype Config = Config(botToken: Option<string>, chatId: Option<string>)

  /** The JSON payload of the `sendMessage` call and the URL it is posted to. */
  datatype Request = Request(
    endpoint: string,
    chatId: string,
    text: string,
    parseMode: string,
    disableWebPagePreview: bool)

  /** The outcome of `client.post(...)`: an `httpx.RequestError`, or an answer. */
  datatype PostResult = PostRequestError | PostAnswered(status: int)

  /** Both settings are truthy (neither unset nor empty). */
  predicate Configured(cfg: Config) {
    Truthy(cfg.botToken) && Truthy(cfg.chatId)
  }

  /** The first line of every alert, followed by a blank line. */
  const Header: string := "\U{1F6A8} *NEW IPO ALERT* \U{1F6A8}\n\n"

  /** One labelled field line in Telegram Markdown. */
  function Line(name: string, value: string): string {
    "*" + name + ":* " + value + "\n"
  }

  /** The header and the eight labelled field lines. */
  function AlertBody(e: IpoEntry): string {
    Header
      + Line("Symbol", e.symbolClean)
      + Line("Company", e.companyName)
      + Line("Units", e.units)
      + Line("Price", "NPR " + e.price)
      + Line("Opening Date", e.openingDate)
      + Line("Closing Date", e.closingDate)
      + Line("Issue Manager", e.issueManager)
      + Line("Status", e.status)
  }

  /** The message text: the body, then a details link when the entry has a non-empty url. */
  function AlertMessage(e: IpoEntry): (msg: string)
    ensures |msg| > |Header| && msg[..|Header|] == Header
    ensures msg[|msg| - 1] == ')' <==> Truthy(e.url)
    ensures Truthy(e.url) ==> msg == AlertBody(e) + "\n[View Details](" + e.url.value + ")"
    ensures !Truthy(e.url) ==> msg == AlertBody(e)
  {
    var body := AlertBody(e);
    assert body[..|Header|] == Header;
    assert body[|body| - 1] == '\n';
    if Truthy(e.url) then body + "\n[View Details](" + e.url.value + ")" else body
  }

  /** The url only decides the suffix: the rest of the message is the text an
      entry without a url gets. */
  lemma MessageUrlOnlyAddsSuffix(e: IpoEntry)
    ensures var plain := AlertMessage(e.(url := None));
            && |plain| <= |AlertMessage(e)|
            && AlertMessage(e)[..|plain|] == plain
            && (AlertMessage(e) == plain <==> !Truthy(e.url))
  {
  }

  /** The `sendMessage` request for an entry. */
  function AlertRequest(cfg: Config, e: IpoEntry): (req: Request)
    requires Configured(cfg)
    ensures req.text == AlertMessage(e) && req.chatId == cfg.chatId.value
    ensures req.parseMode == "Markdown" && !req.disableWebPagePreview
  {
    Request(
      endpoint := "https://api.telegram.org/bot" + cfg.botToken.value + "/sendMessage",
      chatId := cfg.chatId.value,
      text := AlertMessage(e),
      parseMode := "Markdown",
      disableWebPagePreview := false)
  }

  /** `send_telegram_alert`: `False` without posting when unconfigured; otherwise
      `True` on a 2xx answer, `False` on a transport error, and a non-2xx answer
      raises from `raise_for_status`. */
  function SendTelegramAlert(cfg: Config, e: IpoEntry, post: Request -> PostResult): (r: Result<bool, Exception>)
    ensures !Configured(cfg) ==> r == Ok(false)
    ensures r == Ok(true) <==>
              Configured(cfg) && post(AlertRequest(cfg, e)).PostAnswered?
              && IsSuccess(post(AlertRequest(cfg, e)).status)
    ensures r.Err? <==>
              Configured(cfg) && post(AlertRequest(cfg, e)).PostAnswered?
              && !IsSuccess(post(AlertRequest(cfg, e)).status)
    ensures r.Err? ==> r.error == HttpStatusError(post(AlertRequest(cfg, e)).status)
  {
    if !Configured(cfg) then Ok(false)
    else
      match post(AlertRequest(cfg, e))
      case PostRequestError => Ok(false)
      case PostAnswered(status) =>
        if IsSuccess(status) then Ok(true) else Err(HttpStatusError(status))
  }

  /** Without configuration nothing is posted: the outcome does not depend on the
      network at all. A corollary of the first ensures of `SendTelegramAlert`. */
  lemma UnconfiguredNeverPosts(cfg: Config, e: IpoEntry, post1: Request -> PostResult, post2: Request -> PostResult)
    requires !Configured(cfg)
    ensures SendTelegramAlert(cfg, e, post1) == SendTelegramAlert(cfg, e, post2) == Ok(false)
  {
  }
}
