/**
 * The channel-subscription checks: the `check_subscription` decorator that
 * turns away users who left or were banned from the channel, and the
 * callback of its "check" button, which welcomes only confirmed members.
 * The member's status is what `get_chat_member` reported.
 */
module Subscription {
  import opened Callbacks

  const SubscribePromptText: string := "⛔️ يجب الاشتراك في القناة أولاً لاستخدام البوت"
  const NotSubscribedText: string := "⛔️ لم تشترك بعد، يرجى الاشتراك أولاً"
  const WelcomeTail: string := "رحلة روحانية تبدأ من هنا... استعرض، اقرأ، استمع، واحفظ آيات الله 💖"

  /** The statuses a chat member can have. */
  const KnownStatuses: seq<string> := ["creator", "administrator", "member", "restricted", "left", "kicked"]

  /** `main_menu_keyboard`: browse, search and favourites, then a link to the developer. */
  function MainMenu(developerUsername: string): (rows: seq<seq<Button>>)
    ensures |rows| == 4 && |rows[0]| == |rows[1]| == |rows[2]| == |rows[3]| == 1
    ensures rows[0][0].Callback? && Route(rows[0][0].data) == BrowseSurahs
    ensures rows[1][0].Callback? && Route(rows[1][0].data) == SearchVerse
    ensures rows[2][0].Callback? && Route(rows[2][0].data) == ShowFavorites
    ensures rows[3][0].Link?
  {
    FixedDataRoutes();
    [[Callback("📖 تصفّح السور", BrowseSurahsData)],
     [Callback("🔍 البحث عن آية", SearchVerseData)],
     [Callback("⭐ مفضلتي", ShowFavoritesData)],
     [Link("🧑‍💻 المطور", "https://t.me/" + developerUsername)]]
  }

  const Greeting: string := "🕋 مرحباً "

  /** `start`: the greeting with the user's first name, and the main menu. */
  function Welcome(firstName: string, developerUsername: string): (m: Message)
    ensures StartsWith(m.text, Greeting + firstName)
    ensures |WelcomeTail| <= |m.text| && m.text[|m.text| - |WelcomeTail|..] == WelcomeTail
    ensures m.keyboard == MainMenu(developerUsername)
  {
    var text := Greeting + firstName + (" في بوت \"سُطورٌ من السَّماء ☁️\"\n" + WelcomeTail);
    assert text[..|Greeting + firstName|] == Greeting + firstName;
    assert text[|text| - |WelcomeTail|..] == WelcomeTail;
    Message(text, MainMenu(developerUsername))
  }

  /** What the decorator does: run the wrapped handler, or reply with the subscription prompt. */
  datatype GuardOutcome = Proceed | Prompt(m: Message)

  /**
   * The `check_subscription` decorator: a user who left or was banned gets a
   * link to the channel and a button that asks the bot to check again; any
   * other status runs the handler.
   */
  function Guard(status: string, channelUsername: string): (o: GuardOutcome)
    ensures o.Proceed? <==> status != "left" && status != "kicked"
    ensures o.Prompt? ==> o.m.text == SubscribePromptText && |o.m.keyboard| == 2 && |o.m.keyboard[1]| == 1
    ensures o.Prompt? ==> o.m.keyboard[1][0].Callback? && Route(o.m.keyboard[1][0].data) == CheckSubscription
  {
    FixedDataRoutes();
    if status == "left" || status == "kicked" then
      Prompt(Message(SubscribePromptText,
                     [[Link("📢 اشترك في القناة", "https://t.me/" + channelUsername)],
                      [Callback("✅ تحقق", CheckSubscriptionData)]]))
    else Proceed
  }

  /** What the check button's callback does: greet the user, or answer that they have not subscribed. */
  datatype CheckOutcome = Welcomed(m: Message) | NotYet(notice: string)

  /** `check_subscription_callback`: only a member, an administrator or the creator is welcomed. */
  function CheckSubscriptionCallback(status: string, firstName: string, developerUsername: string): (o: CheckOutcome)
    ensures o.Welcomed? <==> status == "member" || status == "administrator" || status == "creator"
    ensures o.Welcomed? ==> o.m == Welcome(firstName, developerUsername)
    ensures o.NotYet? ==> o.notice == NotSubscribedText
  {
    if status == "member" || status == "administrator" || status == "creator" then Welcomed(Welcome(firstName, developerUsername))
    else NotYet(NotSubscribedText)
  }

  /** Whoever the check button welcomes also passes the decorator. */
  lemma WelcomedPassesGuard(status: string, firstName: string, developerUsername: string, channelUsername: string)
    ensures CheckSubscriptionCallback(status, firstName, developerUsername).Welcomed? ==> Guard(status, channelUsername).Proceed?
  {
  }

  /**
   * Of the statuses a chat member can have, the two checks disagree only on
   * "restricted": such a user passes the decorator but the check button
   * answers that they have not subscribed.
   */
  lemma ChecksDisagreeOnlyOnRestricted(channelUsername: string, firstName: string, developerUsername: string)
    ensures forall status :: status in KnownStatuses ==>
      (Guard(status, channelUsername).Proceed? == CheckSubscriptionCallback(status, firstName, developerUsername).Welcomed?
       <==> status != "restricted")
  {
    forall status | status in KnownStatuses
      ensures Guard(status, channelUsername).Proceed? == CheckSubscriptionCallback(status, firstName, developerUsername).Welcomed?
              <==> status != "restricted"
    {
      assert status == "creator" || status == "administrator" || status == "member"
          || status == "restricted" || status == "left" || status == "kicked";
    }
  }
}
