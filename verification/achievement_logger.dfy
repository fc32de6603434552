/**
 * The achievement logger: a floating chat whose send action appends the
 * user's text and a canned acknowledgement to the conversation. The send
 * reads the clock twice, once per new message; both readings are parameters
 * of the send.
 */
module AchievementLogger {
  import opened Text

  datatype Sender = User | Assistant

  datatype Message = Message(id: string, sender: Sender, content: string)

  const Greeting: string := "嗨！我是你的成就記錄助手 ✨ 隨時告訴我你完成了什麼專案或達成了什麼里程碑，我會幫你整理成專業的履歷素材！"

  /** How many characters of the achievement the acknowledgement quotes. */
  const QuoteLength: nat := 20

  const ReplyOpen: string := "已記錄！我從你的描述中提取了以下重點：\n\n\U{1F4CC} 專案："
  const ReplyRest: string := "...\n\U{1F4A1} 技能：待AI分析\n\U{1F4CA} 量化指標：待AI分析\n\n這個成就已加入你的職涯資料庫！"

  /** The placeholder acknowledgement, quoting the start of the achievement as the project. */
  function Reply(input: string): string {
    ReplyOpen + Take(input, QuoteLength) + ReplyRest
  }

  /** The acknowledgement quotes the first 20 characters of the achievement and depends on nothing else. */
  lemma ReplyQuotes(a: string, b: string)
    ensures Contains(Reply(a), Take(a, QuoteLength))
    ensures Take(a, QuoteLength) == Take(b, QuoteLength) ==> Reply(a) == Reply(b)
  {
    ContainsSelf(Take(a, QuoteLength));
    ContainsPrepend(ReplyOpen, Take(a, QuoteLength), Take(a, QuoteLength));
    ContainsAppend(ReplyOpen + Take(a, QuoteLength), ReplyRest, Take(a, QuoteLength));
  }

  /** A second reading no earlier than the first names the reply apart from the user's message. */
  lemma ReadingsNameApart(first: nat, second: nat)
    ensures first <= second ==> NatToString(first) != NatToString(second + 1)
  {
    if first <= second {
      NatToStringInjective(first, second + 1);
    }
  }

  /**
   * The two messages a send adds: the raw text named by the first clock
   * reading, then the acknowledgement named by the second reading plus one
   * millisecond. A clock that does not run backwards between the two
   * readings gives them different ids.
   */
  function Exchange(input: string, first: nat, second: nat): (ms: seq<Message>)
    ensures |ms| == 2 && ms[0].sender == User && ms[1].sender == Assistant
    ensures ms[0].content == input && ms[1].content == Reply(input)
    ensures ms[0].id == NatToString(first) && ms[1].id == NatToString(second + 1)
    ensures first <= second ==> ms[0].id != ms[1].id
  {
    ReadingsNameApart(first, second);
    [Message(NatToString(first), User, input), Message(NatToString(second + 1), Assistant, Reply(input))]
  }

  /** A clock set back by a millisecond or more between the two readings can give both messages the same id. */
  lemma ClockBackCollision(input: string, second: nat)
    ensures var ms := Exchange(input, second + 1, second); ms[0].id == ms[1].id
  {
  }

  class Logger {
    var isOpen: bool
    var input: string
    var messages: seq<Message>

    constructor()
      ensures !isOpen && input == ""
      ensures messages == [Message("1", Assistant, Greeting)]
    {
      isOpen := false;
      input := "";
      messages := [Message("1", Assistant, Greeting)];
    }

    /** The send button is enabled when the text is not blank. */
    predicate SendEnabled()
      reads this
    {
      JsTrim(input) != ""
    }

    /** The text area's change handler. */
    method Edit(text: string)
      modifies this
      ensures input == text && messages == old(messages) && isOpen == old(isOpen)
    {
      input := text;
    }

    /** handleSend: blank text changes nothing; otherwise the exchange is appended and the text area cleared. */
    method Send(first: nat, second: nat)
      modifies this
      ensures JsTrim(old(input)) == "" ==> input == old(input) && messages == old(messages)
      ensures JsTrim(old(input)) != "" ==> input == "" && messages == old(messages) + Exchange(old(input), first, second)
      ensures isOpen == old(isOpen)
    {
      if JsTrim(input) == "" {
        return;
      }
      messages := messages + Exchange(input, first, second);
      input := "";
    }

    /** The text area's key handler: Enter without Shift sends; any other key leaves the conversation alone. */
    method KeyDown(key: string, shift: bool, first: nat, second: nat)
      modifies this
      ensures key == "Enter" && !shift && JsTrim(old(input)) != "" ==>
        input == "" && messages == old(messages) + Exchange(old(input), first, second)
      ensures !(key == "Enter" && !shift && JsTrim(old(input)) != "") ==>
        input == old(input) && messages == old(messages)
      ensures isOpen == old(isOpen)
    {
      if key == "Enter" && !shift {
        Send(first, second);
      }
    }

    /** The floating trophy button opens the panel and hides itself. */
    method Open()
      modifies this
      ensures isOpen && input == old(input) && messages == old(messages)
    {
      isOpen := true;
    }

    /** The close button; the conversation and the text are kept. */
    method Close()
      modifies this
      ensures !isOpen && input == old(input) && messages == old(messages)
    {
      isOpen := false;
    }
  }

  /** A send that goes through grows the conversation by exactly the user's message and the reply, keeping everything before. */
  method SendKeepsHistory(l: Logger, first: nat, second: nat) returns (sent: bool)
    modifies l
    ensures sent <==> old(l.SendEnabled())
    ensures sent ==> |l.messages| == |old(l.messages)| + 2 && l.messages[..|old(l.messages)|] == old(l.messages)
    ensures sent ==> l.messages[|old(l.messages)|] == Message(NatToString(first), User, old(l.input))
    ensures sent ==> l.messages[|old(l.messages)| + 1].content == Reply(old(l.input))
    ensures !sent ==> l.messages == old(l.messages) && l.input == old(l.input)
  {
    sent := l.SendEnabled();
    l.Send(first, second);
  }
}
