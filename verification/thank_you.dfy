/**
 * The thank-you letter generator: the form check, the e-mail and chat
 * templates filled from the form, the delayed completion of a generation
 * and the copy buttons. The clipboard write is returned to the caller and
 * the two timers are split into the step that starts them and the step
 * they run.
 */
module ThankYou {
  import opened Common
  import opened Text

  /** The four form fields, as the generation step captures them. */
  datatype Form = Form(interviewer: string, company: string, position: string, notes: string)

  /** The two output tabs, which are also the values of `copied`. */
  datatype Channel = EmailTab | ChatTab

  /** The check before generating: the three names must be non-empty; blanks are not trimmed away. */
  predicate FormComplete(f: Form) {
    f.interviewer != "" && f.company != "" && f.position != ""
  }

  const EmailGreeting: string := "親愛的 "
  const EmailThanks: string := "：\n\n感謝您今天撥冗與我進行 "
  const EmailPosition: string := " 職位的面試。\n\n非常榮幸有機會更深入了解 "
  const EmailCulture: string := " 的團隊文化和發展方向。"
  const EmailNotesOpen: string := "特別是我們討論到的"
  const EmailNotesClose: string := "...相關內容，讓我對這個職位有了更清晰的認識。"
  const EmailValue: string := "\n\n通過今天的交流，我更加確信我的技能和經驗能夠為團隊帶來價值。我對這個機會充滿期待，希望有機會成為 "
  const EmailClosing: string := " 的一員。\n\n如有任何需要補充的資訊，請隨時與我聯繫。再次感謝您的時間和考慮。\n\n祝好，\n[您的姓名]"

  const ChatHello: string := " 您好！\n\n謝謝您今天的面試 \U{1F64F} 和您聊 "
  const ChatOf: string := " 的 "
  const ChatGlad: string := " 機會很開心！\n\n"
  const ChatNotesOpen: string := "特別是您分享的"
  const ChatNotesClose: string := "相關經驗很有收穫 \U{1F4A1}"
  const ChatFallback: string := "今天的對話讓我對團隊有更多了解！"
  const ChatClosing: string := "\n\n期待有機會加入團隊一起打拼 \U{1F4AA}\n\n有任何問題隨時找我\U{FF5E}"

  /** How many characters of the notes each template quotes. */
  const EmailExcerpt: nat := 50
  const ChatExcerpt: nat := 30

  /** The e-mail up to the notes sentence: greeting, thanks for the interview for the position, the company. */
  function EmailHead(f: Form): string {
    EmailGreeting + f.interviewer + EmailThanks + f.position + EmailPosition + f.company + EmailCulture
  }

  /** The sentence about the notes: absent for empty notes, otherwise quoting their first 50 characters. */
  function EmailNotes(notes: string): string
  {
    if notes == "" then "" else EmailNotesOpen + Take(notes, EmailExcerpt) + EmailNotesClose
  }

  /** The e-mail after the notes sentence, naming the company once more. */
  function EmailTail(f: Form): string {
    EmailValue + f.company + EmailClosing
  }

  /** The e-mail letter. */
  function Email(f: Form): string {
    EmailHead(f) + EmailNotes(f.notes) + EmailTail(f)
  }

  /** The e-mail names the interviewer, the position and the company, and quotes the start of non-empty notes. */
  lemma EmailMentions(f: Form)
    ensures Contains(Email(f), f.interviewer) && Contains(Email(f), f.position) && Contains(Email(f), f.company)
    ensures f.notes != "" ==> Contains(Email(f), Take(f.notes, EmailExcerpt))
  {
    var i, p, c := f.interviewer, f.position, f.company;
    var n := EmailNotes(f.notes);
    var t := EmailTail(f);
    // the interviewer, carried to the end of the letter
    ContainsSelf(i);
    ContainsPrepend(EmailGreeting, i, i);
    ContainsAppend(EmailGreeting + i, EmailThanks, i);
    ContainsAppend(EmailGreeting + i + EmailThanks, p, i);
    ContainsAppend(EmailGreeting + i + EmailThanks + p, EmailPosition, i);
    ContainsAppend(EmailGreeting + i + EmailThanks + p + EmailPosition, c, i);
    ContainsAppend(EmailGreeting + i + EmailThanks + p + EmailPosition + c, EmailCulture, i);
    ContainsAppend(EmailHead(f), n, i);
    ContainsAppend(EmailHead(f) + n, t, i);
    // the position
    ContainsSelf(p);
    ContainsPrepend(EmailGreeting + i + EmailThanks, p, p);
    ContainsAppend(EmailGreeting + i + EmailThanks + p, EmailPosition, p);
    ContainsAppend(EmailGreeting + i + EmailThanks + p + EmailPosition, c, p);
    ContainsAppend(EmailGreeting + i + EmailThanks + p + EmailPosition + c, EmailCulture, p);
    ContainsAppend(EmailHead(f), n, p);
    ContainsAppend(EmailHead(f) + n, t, p);
    // the company
    ContainsSelf(c);
    ContainsPrepend(EmailGreeting + i + EmailThanks + p + EmailPosition, c, c);
    ContainsAppend(EmailGreeting + i + EmailThanks + p + EmailPosition + c, EmailCulture, c);
    ContainsAppend(EmailHead(f), n, c);
    ContainsAppend(EmailHead(f) + n, t, c);
    if f.notes != "" {
      var w := Take(f.notes, EmailExcerpt);
      ContainsSelf(w);
      ContainsPrepend(EmailNotesOpen, w, w);
      ContainsAppend(EmailNotesOpen + w, EmailNotesClose, w);
      ContainsPrepend(EmailHead(f), n, w);
      ContainsAppend(EmailHead(f) + n, t, w);
    }
  }

  /** The line about the notes in the chat message: the fixed line for empty notes, otherwise quoting their first 30 characters. */
  function ChatNotes(notes: string): string
  {
    if notes == "" then ChatFallback else ChatNotesOpen + Take(notes, ChatExcerpt) + ChatNotesClose
  }

  /** The chat message. */
  function Chat(f: Form): string {
    f.interviewer + ChatHello + f.company + ChatOf + f.position + ChatGlad + ChatNotes(f.notes) + ChatClosing
  }

  /** The chat message names the interviewer, the company and the position, and carries either the fixed line or the start of the notes. */
  lemma ChatMentions(f: Form)
    ensures Contains(Chat(f), f.interviewer) && Contains(Chat(f), f.company) && Contains(Chat(f), f.position)
    ensures f.notes == "" ==> Contains(Chat(f), ChatFallback)
    ensures f.notes != "" ==> Contains(Chat(f), Take(f.notes, ChatExcerpt))
  {
    var i, c, p := f.interviewer, f.company, f.position;
    var n := ChatNotes(f.notes);
    var head := i + ChatHello + c + ChatOf + p + ChatGlad;
    // the interviewer
    ContainsSelf(i);
    ContainsAppend(i, ChatHello, i);
    ContainsAppend(i + ChatHello, c, i);
    ContainsAppend(i + ChatHello + c, ChatOf, i);
    ContainsAppend(i + ChatHello + c + ChatOf, p, i);
    ContainsAppend(i + ChatHello + c + ChatOf + p, ChatGlad, i);
    ContainsAppend(head, n, i);
    ContainsAppend(head + n, ChatClosing, i);
    // the company
    ContainsSelf(c);
    ContainsPrepend(i + ChatHello, c, c);
    ContainsAppend(i + ChatHello + c, ChatOf, c);
    ContainsAppend(i + ChatHello + c + ChatOf, p, c);
    ContainsAppend(i + ChatHello + c + ChatOf + p, ChatGlad, c);
    ContainsAppend(head, n, c);
    ContainsAppend(head + n, ChatClosing, c);
    // the position
    ContainsSelf(p);
    ContainsPrepend(i + ChatHello + c + ChatOf, p, p);
    ContainsAppend(i + ChatHello + c + ChatOf + p, ChatGlad, p);
    ContainsAppend(head, n, p);
    ContainsAppend(head + n, ChatClosing, p);
    // the notes line
    var w := if f.notes == "" then ChatFallback else Take(f.notes, ChatExcerpt);
    ContainsSelf(w);
    if f.notes != "" {
      ContainsPrepend(ChatNotesOpen, w, w);
      ContainsAppend(ChatNotesOpen + w, ChatNotesClose, w);
    }
    ContainsPrepend(head, n, w);
    ContainsAppend(head + n, ChatClosing, w);
  }

  /** A sentence spliced between a head and a tail reads head, sentence, tail. */
  lemma Spliced(h: string, o: string, w: string, q: string, t: string)
    ensures h + (o + w + q) + t == h + o + w + q + t
  {
  }

  /** Only the first 50 characters of the notes reach the e-mail, and only the first 30 reach the chat message. */
  lemma OnlyExcerptMatters(f: Form, g: Form)
    requires f.interviewer == g.interviewer && f.company == g.company && f.position == g.position
    ensures Take(f.notes, EmailExcerpt) == Take(g.notes, EmailExcerpt) ==> Email(f) == Email(g)
    ensures Take(f.notes, ChatExcerpt) == Take(g.notes, ChatExcerpt) ==> Chat(f) == Chat(g)
  {
    TakeEmpty(f.notes, EmailExcerpt);
    TakeEmpty(g.notes, EmailExcerpt);
    TakeEmpty(f.notes, ChatExcerpt);
    TakeEmpty(g.notes, ChatExcerpt);
  }

  /** A positive-length prefix of a string is empty exactly when the string is. */
  lemma TakeEmpty(s: string, n: nat)
    requires n > 0
    ensures Take(s, n) == "" <==> s == ""
  {
  }

  /** Empty notes drop the notes sentence from the e-mail and nothing else; other notes add exactly that sentence. */
  lemma EmailNotesSentence(f: Form)
    ensures Email(f.(notes := "")) == EmailHead(f) + EmailTail(f)
    ensures f.notes != "" ==>
      Email(f) == EmailHead(f) + EmailNotesOpen + Take(f.notes, EmailExcerpt) + EmailNotesClose + EmailTail(f)
    ensures |Email(f)| <= |Email(f.(notes := ""))| + |EmailNotesOpen| + EmailExcerpt + |EmailNotesClose|
  {
    var g := f.(notes := "");
    assert EmailHead(g) == EmailHead(f) && EmailTail(g) == EmailTail(f);
    DropEmpty(EmailHead(f), EmailTail(f));
    if f.notes != "" {
      Spliced(EmailHead(f), EmailNotesOpen, Take(f.notes, EmailExcerpt), EmailNotesClose, EmailTail(f));
    }
  }

  lemma DropEmpty(h: string, t: string)
    ensures h + [] + t == h + t
  {
  }

  class ThankYouLetter {
    var interviewerName: string
    var companyName: string
    var positionTitle: string
    var interviewNotes: string
    var isGenerating: bool
    var generatedEmail: string
    var generatedChat: string
    var copied: Option<Channel>

    constructor()
      ensures interviewerName == "" && companyName == "" && positionTitle == "" && interviewNotes == ""
      ensures !isGenerating && generatedEmail == "" && generatedChat == "" && copied.None?
    {
      interviewerName, companyName, positionTitle, interviewNotes := "", "", "", "";
      isGenerating := false;
      generatedEmail, generatedChat := "", "";
      copied := None;
    }

    function CurrentForm(): Form
      reads this
    {
      Form(interviewerName, companyName, positionTitle, interviewNotes)
    }

    /** The output tabs are shown when either letter is non-empty; otherwise the empty placeholder is. */
    predicate ShowOutput()
      reads this
    {
      generatedEmail != "" || generatedChat != ""
    }

    /** The four inputs' change handlers. */
    method Edit(f: Form)
      modifies this
      ensures CurrentForm() == f
      ensures isGenerating == old(isGenerating) && generatedEmail == old(generatedEmail)
      ensures generatedChat == old(generatedChat) && copied == old(copied)
    {
      interviewerName, companyName, positionTitle, interviewNotes := f.interviewer, f.company, f.position, f.notes;
    }

    /**
     * handleGenerate up to the timer: an incomplete form is refused with no
     * change; otherwise generation starts and the form as it is now is what
     * the timer will use.
     */
    method BeginGenerate() returns (captured: Option<Form>)
      modifies this
      ensures captured.None? <==> !FormComplete(old(CurrentForm()))
      ensures captured.Some? ==> captured.value == old(CurrentForm()) && isGenerating
      ensures captured.None? ==> isGenerating == old(isGenerating)
      ensures CurrentForm() == old(CurrentForm()) && copied == old(copied)
      ensures generatedEmail == old(generatedEmail) && generatedChat == old(generatedChat)
    {
      if interviewerName == "" || companyName == "" || positionTitle == "" {
        return None;
      }
      isGenerating := true;
      captured := Some(CurrentForm());
    }

    /** The timer's callback: both letters from the captured form, and generation ends. */
    method CompleteGenerate(f: Form)
      modifies this
      ensures generatedEmail == Email(f) && generatedChat == Chat(f) && !isGenerating
      ensures CurrentForm() == old(CurrentForm()) && copied == old(copied)
    {
      generatedEmail := Email(f);
      generatedChat := Chat(f);
      isGenerating := false;
    }

    /** handleCopy: the tab's letter goes to the clipboard and that tab's button shows as copied. */
    method Copy(tab: Channel) returns (clipboard: string)
      modifies this
      ensures clipboard == if tab == EmailTab then generatedEmail else generatedChat
      ensures copied == Some(tab)
      ensures CurrentForm() == old(CurrentForm()) && isGenerating == old(isGenerating)
      ensures generatedEmail == old(generatedEmail) && generatedChat == old(generatedChat)
    {
      clipboard := if tab == EmailTab then generatedEmail else generatedChat;
      copied := Some(tab);
    }

    /** The copy timer: neither button shows as copied. */
    method ClearCopied()
      modifies this
      ensures copied.None?
      ensures CurrentForm() == old(CurrentForm()) && isGenerating == old(isGenerating)
      ensures generatedEmail == old(generatedEmail) && generatedChat == old(generatedChat)
    {
      copied := None;
    }
  }

  /**
   * A click on the generate button whose timer fires before any edit: with
   * a complete form both letters are written from it and the output shows;
   * otherwise nothing changes.
   */
  method Generate(t: ThankYouLetter) returns (generated: bool)
    modifies t
    ensures generated <==> FormComplete(old(t.CurrentForm()))
    ensures generated ==>
      t.generatedEmail == Email(old(t.CurrentForm())) && t.generatedChat == Chat(old(t.CurrentForm()))
      && !t.isGenerating && t.ShowOutput()
    ensures !generated ==>
      t.generatedEmail == old(t.generatedEmail) && t.generatedChat == old(t.generatedChat)
      && t.isGenerating == old(t.isGenerating)
  {
    var captured := t.BeginGenerate();
    generated := captured.Some?;
    if generated {
      t.CompleteGenerate(captured.value);
      assert |EmailGreeting| > 0;
    }
  }

  /** Names made only of spaces pass the check. */
  lemma BlankNamesPass()
    ensures FormComplete(Form(" ", " ", " ", ""))
  {
  }

  /** Any missing name blocks generation. */
  lemma MissingNameBlocks(f: Form)
    ensures !FormComplete(f.(interviewer := "")) && !FormComplete(f.(company := "")) && !FormComplete(f.(position := ""))
  {
  }
}
