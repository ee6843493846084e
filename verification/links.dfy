/** The `t.me` links the bot hands out: the plain bot link, and the deep link
    `https://t.me/<bot>?start=<arg>` that carries a video id back to `/start`. */
module Links {
  import opened Model
  import opened Text

  const TelegramBase: string := "https://t.me/"
  const StartQuery: string := "?start="

  /** `https://t.me/<bot>`. */
  function BotLink(bot: string): string {
    TelegramBase + bot
  }

  /** Everything of a deep link before its argument. */
  function DeepLinkPrefix(bot: string): string {
    TelegramBase + bot + StartQuery
  }

  /** `https://t.me/<bot>?start=<arg>`: the retry link, the copy-link alert and
      the share link after a finished upload all have this shape. */
  function DeepLink(bot: string, arg: string): (link: string)
    ensures StartsWith(link, DeepLinkPrefix(bot))
    ensures |link| == |DeepLinkPrefix(bot)| + |arg|
  {
    DeepLinkPrefix(bot) + arg
  }

  /** How a deep link is read back: the text after `?start=`, when the link is
      a deep link to this bot at all. */
  function StartArgument(bot: string, link: string): Option<string> {
    var pre := DeepLinkPrefix(bot);
    if StartsWith(link, pre) then Some(link[|pre|..]) else None
  }

  /** Reading a deep link back yields exactly the argument put in. */
  lemma DeepLinkRoundTrip(bot: string, arg: string)
    ensures StartArgument(bot, DeepLink(bot, arg)) == Some(arg)
  {
    var pre := DeepLinkPrefix(bot);
    assert (pre + arg)[|pre|..] == arg;
  }

  /** Distinct ids never share a deep link. */
  lemma DeepLinkInjective(bot: string, a: string, b: string)
    requires DeepLink(bot, a) == DeepLink(bot, b)
    ensures a == b
  {
    DeepLinkRoundTrip(bot, a);
    DeepLinkRoundTrip(bot, b);
  }

  /** The link behind the "I've joined" prompt: a deep link when the
      triggering `/start` carried a (truthy) argument, else the bare bot link. */
  function RetryLink(bot: string, deepArg: Option<string>): (link: string)
    ensures Truthy(deepArg) ==> StartArgument(bot, link) == Some(deepArg.value)
    ensures !Truthy(deepArg) ==> StartArgument(bot, link) == None
    ensures !Truthy(deepArg) ==> link == TelegramBase + bot
  {
    if Truthy(deepArg) then
      DeepLinkRoundTrip(bot, deepArg.value);
      DeepLink(bot, deepArg.value)
    else
      assert !StartsWith(BotLink(bot), DeepLinkPrefix(bot));
      BotLink(bot)
  }
}
