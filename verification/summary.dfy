/**
 * The profile summary: the user's questions from their most recent chats,
 * without repeats, are put to the llama provider twice, once asking for
 * English and once for Arabic, and both answers are cleaned.
 */
module Summary {
  import opened Wrappers
  import opened Text
  import opened Domain
  import Cleaning
  import Providers
  import opened ChatRepo

  /** How many of the newest chats are read. */
  const ChatLimit: nat := 50

  /** The separator the questions are joined with, so that each after the first reads as a list item. */
  const QuestionSep: string := "\n- "

  const EnglishHead: string :=
    "You are an AI assistant. " +
    "You MUST respond in English only. " +
    "Summarize the user\'s interests based on their questions below. " +
    "Write a brief, clear summary (2-3 sentences) about their topics of interest in English. " +
    "Do not use any special characters, asterisks, quotes, or markdown formatting. " +
    "Write plain text only in English.\n\nQuestions:\n"
  const EnglishTail: string := "\n\nWrite the summary in English:"

  /**
   * The Arabic instruction as the source file holds it: the UTF-8 bytes of
   * the Arabic text read as Windows-1252 characters, which is what the model
   * receives.
   */
  const ArabicHead: string :=
    "Ø£Ù†Øª Ù…Ø³Ø§Ø¹Ø¯ Ø°ÙƒÙŠ ÙŠØ¬Ø¨ Ø¹Ù„ÙŠÙƒ Ø§Ù„Ø±Ø¯ Ø¨Ø§Ù„Ø¹Ø±Ø¨ÙŠØ© ÙÙ‚Ø·. " +
    "Ù‚Ù… Ø¨ØªÙ„Ø®ÙŠØµ Ø§Ù‡ØªÙ…Ø§Ù…Ø§Øª Ø§Ù„Ù…Ø³ØªØ®Ø¯Ù… Ø¨Ù†Ø§Ø¡Ù‹ Ø¹Ù„Ù‰ Ø£Ø³Ø¦Ù„ØªÙ‡ Ø§Ù„ØªØ§Ù„ÙŠØ©. " +
    "Ø§ÙƒØªØ¨ Ù…Ù„Ø®ØµØ§Ù‹ Ù‚ØµÙŠØ±Ø§Ù‹ ÙˆØ§Ø¶Ø\U{AD}Ø§Ù‹ (2-3 Ø¬Ù…Ù„) Ø¹Ù† Ù…ÙˆØ§Ø¶ÙŠØ¹ Ø§Ù‡ØªÙ…Ø§Ù…Ù‡ Ø¨Ø§Ù„Ù„ØºØ© Ø§Ù„Ø¹Ø±Ø¨ÙŠØ©. " +
    "Ù„Ø§ ØªØ³ØªØ®Ø¯Ù… Ø£ÙŠ Ø±Ù…ÙˆØ² Ø®Ø§ØµØ© Ø£Ùˆ Ø¹Ù„Ø§Ù…Ø§Øª ØªÙ†ØµÙŠØµ Ø£Ùˆ Ù†Ø¬ÙˆÙ…. " +
    "Ø§ÙƒØªØ¨ Ù†ØµØ§Ù‹ Ø¹Ø§Ø¯ÙŠØ§Ù‹ ÙÙ‚Ø· Ø¨Ø§Ù„Ø¹Ø±Ø¨ÙŠØ©.\n\nØ§Ù„Ø£Ø³Ø¦Ù„Ø©:\n"
  const ArabicTail: string := "\n\nØ§ÙƒØªØ¨ Ø§Ù„Ù…Ù„Ø®Øµ Ø¨Ø§Ù„Ø¹Ø±Ø¨ÙŠØ© ÙÙ‚Ø·:"

  /** The instruction asking for a summary of `combined` in the given language. */
  function Prompt(l: Language, combined: string): string
  {
    if l == Ar then ArabicHead + combined + ArabicTail else EnglishHead + combined + EnglishTail
  }

  // ---------------------------------------------------------------------------
  // The questions
  // ---------------------------------------------------------------------------

  /** The chats a summary reads: the user's newest chats, at most fifty of them. */
  function RecentChats(s: Store, userId: string): (r: seq<ChatView>)
    ensures |r| == (if |ListByUser(s, userId)| < ChatLimit then |ListByUser(s, userId)| else ChatLimit)
    ensures r == ListByUser(s, userId)[..|r|]
  {
    var all := ListByUser(s, userId);
    if |all| <= ChatLimit then all else all[..ChatLimit]
  }

  /** The contents of a history's user messages, in order. */
  function UserContents(msgs: seq<Message>): seq<string>
  {
    if |msgs| == 0 then []
    else
      var last := msgs[|msgs| - 1];
      UserContents(msgs[..|msgs| - 1]) + (if last.role == User then [last.content] else [])
  }

  /** The user message contents of the chats, chat by chat. */
  function Questions(chats: seq<ChatView>): seq<string>
  {
    if |chats| == 0 then [] else Questions(chats[..|chats| - 1]) + UserContents(chats[|chats| - 1].messages)
  }

  /** A text is a question of a history exactly when a user message holds it; assistant messages never contribute. */
  lemma {:induction false} UserContentsMembers(msgs: seq<Message>)
    ensures forall x :: x in UserContents(msgs) <==> Message(User, x) in msgs
  {
    if |msgs| > 0 {
      var front := msgs[..|msgs| - 1];
      UserContentsMembers(front);
      assert msgs == front + [msgs[|msgs| - 1]];
    }
  }

  /** A text is a question of the chats exactly when some chat has a user message holding it. */
  lemma {:induction false} QuestionsMembers(chats: seq<ChatView>)
    ensures forall x :: x in Questions(chats) <==> exists i :: 0 <= i < |chats| && Message(User, x) in chats[i].messages
  {
    if |chats| > 0 {
      var front := chats[..|chats| - 1];
      var last := chats[|chats| - 1];
      QuestionsMembers(front);
      UserContentsMembers(last.messages);
      forall x
        ensures x in Questions(chats) <==> exists i :: 0 <= i < |chats| && Message(User, x) in chats[i].messages
      {
        if Message(User, x) in last.messages {
          assert Message(User, x) in chats[|chats| - 1].messages;
        }
        if exists i :: 0 <= i < |front| && Message(User, x) in front[i].messages {
          var i :| 0 <= i < |front| && Message(User, x) in front[i].messages;
          assert Message(User, x) in chats[i].messages;
        }
        if exists i :: 0 <= i < |chats| && Message(User, x) in chats[i].messages {
          var i :| 0 <= i < |chats| && Message(User, x) in chats[i].messages;
          if i < |front| {
            assert Message(User, x) in front[i].messages;
          }
        }
      }
    }
  }

  predicate Distinct(xs: seq<string>)
  {
    forall i, j :: 0 <= i < j < |xs| ==> xs[i] != xs[j]
  }

  /** The values of a `Set` filled in order: each value once, where it first occurs. */
  function Unique(xs: seq<string>): (r: seq<string>)
    ensures Distinct(r)
    ensures forall x :: x in r <==> x in xs
  {
    if |xs| == 0 then []
    else
      var front := xs[..|xs| - 1];
      var x := xs[|xs| - 1];
      var u := Unique(front);
      assert xs == front + [x];
      if x in u then u else u + [x]
  }

  /** Later values never reorder earlier ones: the unique values of a prefix are a prefix of the unique values. */
  lemma {:induction false} UniqueKeepsOrder(xs: seq<string>, k: nat)
    requires k <= |xs|
    ensures Unique(xs[..k]) <= Unique(xs)
    decreases |xs|
  {
    if k < |xs| {
      var front := xs[..|xs| - 1];
      assert front[..k] == xs[..k];
      UniqueKeepsOrder(front, k);
    } else {
      assert xs[..k] == xs;
    }
  }

  /** Values without repeats are kept as they are. */
  lemma {:induction false} UniqueOfDistinct(xs: seq<string>)
    requires Distinct(xs)
    ensures Unique(xs) == xs
  {
    if |xs| > 0 {
      var front := xs[..|xs| - 1];
      UniqueOfDistinct(front);
      assert xs[|xs| - 1] !in front;
    }
  }

  /** The question list the prompts carry. */
  function Combined(chats: seq<ChatView>): string
  {
    Join(Unique(Questions(chats)), QuestionSep)
  }

  // ---------------------------------------------------------------------------
  // Generation
  // ---------------------------------------------------------------------------

  /** The summary variant of the title cleaner: the same passes, but the label it drops is `Summary:`. */
  function CleanSummary(text: string): (r: string)
    ensures Cleaning.Markdownless(r) && Trimmed(r) && Cleaning.SingleSpaced(r)
    ensures |r| <= |text|
  {
    Cleaning.Clean(text, Cleaning.SummaryPrefixes)
  }

  /** A summary that is already plain text passes through the cleaner unchanged. */
  lemma PlainSummaryKept(text: string)
    requires Cleaning.Plain(text, Cleaning.SummaryPrefixes)
    ensures CleanSummary(text) == text
  {
    Cleaning.CleanKeepsPlain(text, Cleaning.SummaryPrefixes);
  }

  /** The provider's answer to the prompt in one language; summaries always use the llama provider. */
  function Generated(l: Language, chats: seq<ChatView>, ask: (string, string) -> Providers.Upstream): string
  {
    Providers.Generate(Providers.ProviderFor(Llama), [Message(User, Prompt(l, Combined(chats)))], l, ask)
  }

  datatype Bilingual = Bilingual(en: string, ar: string)

  /**
   * `summarizeUser`: both summaries come from the same newest chats, each is
   * the cleaned answer to the prompt in its language, and each is free of
   * markup, trimmed and single-spaced.
   */
  function SummarizeUser(s: Store, userId: string, ask: (string, string) -> Providers.Upstream): (r: Bilingual)
    ensures r.en == CleanSummary(Generated(En, RecentChats(s, userId), ask))
    ensures r.ar == CleanSummary(Generated(Ar, RecentChats(s, userId), ask))
    ensures Cleaning.Markdownless(r.en) && Trimmed(r.en) && Cleaning.SingleSpaced(r.en)
    ensures Cleaning.Markdownless(r.ar) && Trimmed(r.ar) && Cleaning.SingleSpaced(r.ar)
  {
    var chats := RecentChats(s, userId);
    Bilingual(CleanSummary(Generated(En, chats, ask)), CleanSummary(Generated(Ar, chats, ask)))
  }

  /** Only the user's questions matter: stores whose newest chats ask the same questions get the same summaries. */
  lemma SummaryDependsOnQuestions(s: Store, t: Store, userId: string, ask: (string, string) -> Providers.Upstream)
    requires Questions(RecentChats(s, userId)) == Questions(RecentChats(t, userId))
    ensures SummarizeUser(s, userId, ask) == SummarizeUser(t, userId, ask)
  {
  }

  /**
   * With the runtime unreachable the provider echoes the prompt, so each
   * "summary" is the cleaned echo of the instruction in its language.
   */
  lemma SummaryWhenRuntimeDown(s: Store, userId: string, ask: (string, string) -> Providers.Upstream)
    requires forall m, q :: ask(m, q).Failed?
    ensures SummarizeUser(s, userId, ask).en
      == CleanSummary(Providers.SimpleReply([Message(User, Prompt(En, Combined(RecentChats(s, userId))))], En))
    ensures SummarizeUser(s, userId, ask).ar
      == CleanSummary(Providers.SimpleReply([Message(User, Prompt(Ar, Combined(RecentChats(s, userId))))], Ar))
  {
    var combined := Combined(RecentChats(s, userId));
    Providers.RuntimeDownEchoes(Llama, [Message(User, Prompt(En, combined))], En, ask);
    Providers.RuntimeDownEchoes(Llama, [Message(User, Prompt(Ar, combined))], Ar, ask);
  }
}
