/** The chat tab: rebuilding the conversation from the transaction list, and
    the optimistic send state machine. Locale time and amount rendering and
    the `Date.now()` values used in ids are parameters. */
module Conversation {
  import opened Ledger
  import Text

  /** One chat bubble. */
  datatype Message = Message(id: string, text: string, isUser: bool, timestamp: string)

  const UserSuffix: string := "-user"
  const SystemSuffix: string := "-system"
  const ErrorText: string := "❌ Error processing transaction"

  /** The user's side of a transaction: `raw_text` when it is truthy (present
      and non-empty), else the description. */
  function UserText(tx: Transaction): (r: string)
    ensures tx.rawText.Some? && tx.rawText.value != "" ==> r == tx.rawText.value
    ensures tx.rawText.None? || tx.rawText.value == "" ==> r == tx.description
  {
    match tx.rawText
    case Some(s) => if s != "" then s else tx.description
    case None => tx.description
  }

  /** The system acknowledgement of a transaction: a check mark and a space,
      the category, ": TZS ", and the rendered amount at the end. */
  function SystemText(tx: Transaction, formatAmount: int -> string): (r: string)
    ensures var amount := formatAmount(tx.amount);
            && |r| == 2 + |tx.category| + 6 + |amount|
            && r[..2] == "✅ "
            && r[2..2 + |tx.category|] == tx.category
            && r[2 + |tx.category|..|r| - |amount|] == ": TZS "
            && r[|r| - |amount|..] == amount
  {
    "✅ " + tx.category + ": TZS " + formatAmount(tx.amount)
  }

  /** The user's bubble for a transaction: id "{id}-user", the user text,
      and the rendered creation time. */
  function UserEntry(tx: Transaction, formatTime: Option<int> -> string): (m: Message)
    ensures m.isUser
    ensures |m.id| == |tx.id| + |UserSuffix|
    ensures m.id[..|tx.id|] == tx.id && m.id[|tx.id|..] == UserSuffix
    ensures m.text == UserText(tx)
    ensures m.timestamp == formatTime(tx.createdAt)
  {
    Message(tx.id + UserSuffix, UserText(tx), true, formatTime(tx.createdAt))
  }

  /** The system's bubble for a transaction: id "{id}-system", the
      acknowledgement text, and the same rendered time as the user's bubble. */
  function SystemEntry(tx: Transaction, formatTime: Option<int> -> string, formatAmount: int -> string): (m: Message)
    ensures !m.isUser
    ensures |m.id| == |tx.id| + |SystemSuffix|
    ensures m.id[..|tx.id|] == tx.id && m.id[|tx.id|..] == SystemSuffix
    ensures m.text == SystemText(tx, formatAmount)
    ensures m.timestamp == UserEntry(tx, formatTime).timestamp
  {
    Message(tx.id + SystemSuffix, SystemText(tx, formatAmount), false, formatTime(tx.createdAt))
  }

  /** The list built by the effect before reversal: for each transaction in
      input order, its user entry followed by its system entry. */
  function Pairs(txs: seq<Transaction>, formatTime: Option<int> -> string, formatAmount: int -> string): (p: seq<Message>)
    ensures |p| == 2 * |txs|
    ensures forall k :: 0 <= k < |txs| ==>
              p[2 * k] == UserEntry(txs[k], formatTime) &&
              p[2 * k + 1] == SystemEntry(txs[k], formatTime, formatAmount)
  {
    if |txs| == 0 then []
    else
      var front := Pairs(txs[..|txs| - 1], formatTime, formatAmount);
      var last := txs[|txs| - 1];
      var p := front + [UserEntry(last, formatTime), SystemEntry(last, formatTime, formatAmount)];
      assert forall k :: 0 <= k < |txs| - 1 ==> txs[..|txs| - 1][k] == txs[k];
      p
  }

  /** Array reversal. */
  function Reverse<T>(s: seq<T>): (r: seq<T>)
    ensures |r| == |s|
    ensures forall i :: 0 <= i < |s| ==> r[i] == s[|s| - 1 - i]
  {
    if |s| == 0 then [] else Reverse(s[1..]) + [s[0]]
  }

  /** The transaction-to-message effect: two entries per transaction, the
      whole list then reversed, so position 2k holds the system entry and
      position 2k+1 the user entry of the k-th transaction from the end. */
  function Reconcile(txs: seq<Transaction>, formatTime: Option<int> -> string, formatAmount: int -> string): (r: seq<Message>)
    ensures |r| == 2 * |txs|
    ensures forall k :: 0 <= k < |txs| ==>
              r[2 * k] == SystemEntry(txs[|txs| - 1 - k], formatTime, formatAmount) &&
              r[2 * k + 1] == UserEntry(txs[|txs| - 1 - k], formatTime)
  {
    var p := Pairs(txs, formatTime, formatAmount);
    var r := Reverse(p);
    assert forall k :: 0 <= k < |txs| ==>
             r[2 * k] == SystemEntry(txs[|txs| - 1 - k], formatTime, formatAmount) &&
             r[2 * k + 1] == UserEntry(txs[|txs| - 1 - k], formatTime) by {
      forall k | 0 <= k < |txs|
        ensures r[2 * k] == SystemEntry(txs[|txs| - 1 - k], formatTime, formatAmount)
        ensures r[2 * k + 1] == UserEntry(txs[|txs| - 1 - k], formatTime)
      {
        var j := |txs| - 1 - k;
        assert r[2 * k] == p[2 * j + 1];
        assert r[2 * k + 1] == p[2 * j];
      }
    }
    r
  }

  /** Each transaction's pair: one user bubble and one system bubble with the
      same timestamp, the user text and the category/amount acknowledgement. */
  lemma ReconcilePairShape(txs: seq<Transaction>, formatTime: Option<int> -> string, formatAmount: int -> string, k: nat)
    requires k < |txs|
    ensures var r := Reconcile(txs, formatTime, formatAmount);
            var tx := txs[|txs| - 1 - k];
            && r[2 * k + 1].isUser && !r[2 * k].isUser
            && r[2 * k].timestamp == r[2 * k + 1].timestamp == formatTime(tx.createdAt)
            && r[2 * k + 1].text == UserText(tx)
            && r[2 * k].text == "✅ " + tx.category + ": TZS " + formatAmount(tx.amount)
            && r[2 * k + 1].id == tx.id + "-user"
            && r[2 * k].id == tx.id + "-system"
  {
  }

  /** Last list position first: the bubble at position 0 is the system entry
      of the last transaction in the list, and the final bubble is the user
      entry of the first. The backend lists transactions newest first, so
      position 0 belongs to the oldest transaction; the chat list is drawn
      inverted, so position 0 is at the bottom, next to the input. */
  lemma ReconcileEnds(txs: seq<Transaction>, formatTime: Option<int> -> string, formatAmount: int -> string)
    requires |txs| > 0
    ensures var r := Reconcile(txs, formatTime, formatAmount);
            && r[0] == SystemEntry(txs[|txs| - 1], formatTime, formatAmount)
            && r[|r| - 1] == UserEntry(txs[0], formatTime)
  {
  }

  /** Appending the same suffix keeps distinct strings distinct. */
  lemma SuffixInjective(a: string, b: string, suffix: string)
    ensures a != b ==> a + suffix != b + suffix
  {
    if a + suffix == b + suffix {
      assert |a| == |b|;
      assert a == (a + suffix)[..|a|];
      assert b == (b + suffix)[..|b|];
    }
  }

  /** A "-user" id never equals a "-system" id: they end in different letters. */
  lemma RoleSuffixesDiffer(a: string, b: string)
    ensures a + UserSuffix != b + SystemSuffix
  {
    var u := a + UserSuffix;
    var s := b + SystemSuffix;
    assert u[|u| - 1] == 'r';
    assert s[|s| - 1] == 'm';
  }

  /** The id the rebuilt list carries at position i: the id of transaction
      n-1-i/2 with the system suffix at even positions and the user suffix
      at odd ones. */
  function MessageId(txs: seq<Transaction>, i: nat): string
    requires i < 2 * |txs|
  {
    txs[|txs| - 1 - i / 2].id + (if i % 2 == 0 then SystemSuffix else UserSuffix)
  }

  /** Each position of the rebuilt list carries the id MessageId describes. */
  lemma ReconciledIdAt(txs: seq<Transaction>, formatTime: Option<int> -> string, formatAmount: int -> string, i: nat)
    requires i < 2 * |txs|
    ensures Reconcile(txs, formatTime, formatAmount)[i].id == MessageId(txs, i)
  {
    var k := i / 2;
    if i % 2 == 0 {
      assert i == 2 * k;
    } else {
      assert i == 2 * k + 1;
    }
  }

  /** With distinct transaction ids, two positions get different ids. */
  lemma MessageIdsDiffer(txs: seq<Transaction>, i: nat, j: nat)
    requires forall i, j :: 0 <= i < j < |txs| ==> txs[i].id != txs[j].id
    requires i < j < 2 * |txs|
    ensures MessageId(txs, i) != MessageId(txs, j)
  {
    var n := |txs|;
    var ki, kj := i / 2, j / 2;
    var a, b := txs[n - 1 - ki].id, txs[n - 1 - kj].id;
    if i % 2 == j % 2 {
      assert i == 2 * ki + i % 2 && j == 2 * kj + j % 2;
      assert ki < kj;
      assert a != b;
      SuffixInjective(a, b, if i % 2 == 0 then SystemSuffix else UserSuffix);
    } else if i % 2 == 1 {
      RoleSuffixesDiffer(a, b);
    } else {
      RoleSuffixesDiffer(b, a);
    }
  }

  /** Two positions of the rebuilt list carry different ids when the
      transaction ids are distinct. */
  lemma ReconciledIdsDiffer(txs: seq<Transaction>, formatTime: Option<int> -> string, formatAmount: int -> string, i: nat, j: nat)
    requires forall i, j :: 0 <= i < j < |txs| ==> txs[i].id != txs[j].id
    requires i < j < 2 * |txs|
    ensures Reconcile(txs, formatTime, formatAmount)[i].id != Reconcile(txs, formatTime, formatAmount)[j].id
  {
    ReconciledIdAt(txs, formatTime, formatAmount, i);
    ReconciledIdAt(txs, formatTime, formatAmount, j);
    MessageIdsDiffer(txs, i, j);
  }

  /** Distinct transaction ids give pairwise distinct message ids, so the
      rebuilt list has unique keys. */
  lemma ReconciledIdsDistinct(txs: seq<Transaction>, formatTime: Option<int> -> string, formatAmount: int -> string)
    requires forall i, j :: 0 <= i < j < |txs| ==> txs[i].id != txs[j].id
    ensures var r := Reconcile(txs, formatTime, formatAmount);
            forall i, j :: 0 <= i < j < |r| ==> r[i].id != r[j].id
  {
    var r := Reconcile(txs, formatTime, formatAmount);
    forall i, j | 0 <= i < j < |r|
      ensures r[i].id != r[j].id
    {
      ReconciledIdsDiffer(txs, formatTime, formatAmount, i, j);
    }
  }

  // ---------------------------------------------------------------------
  // The send state machine
  // ---------------------------------------------------------------------

  /** The component state that `handleSend` reads and writes. */
  datatype ChatState = ChatState(input: string, messages: seq<Message>, isProcessing: bool)

  /** How the awaited `addTransaction` call ended. */
  datatype Outcome = Replied(text: string) | Threw

  /** ECMAScript WhiteSpace and LineTerminator code points: what `trim` removes. */
  predicate IsJsSpace(c: char)
  {
    || c == ' ' || c == '\t' || c == '\n' || c == '\r'
    || c as int == 0x0B || c as int == 0x0C || c as int == 0xA0
    || c as int == 0x1680 || (0x2000 <= c as int <= 0x200A)
    || c as int == 0x2028 || c as int == 0x2029 || c as int == 0x202F
    || c as int == 0x205F || c as int == 0x3000 || c as int == 0xFEFF
  }

  /** `String.prototype.trim`: the text between the leading and the trailing
      whitespace. It occurs in the input, has no whitespace at either end,
      and is empty exactly when the input is all whitespace. */
  function JsTrim(s: string): (r: string)
    ensures Text.Contains(s, r)
    ensures r != [] ==> !IsJsSpace(r[0]) && !IsJsSpace(r[|r| - 1])
    ensures r == [] <==> forall i :: 0 <= i < |s| ==> IsJsSpace(s[i])
    ensures var lo := Text.LeadingSpaces(s, IsJsSpace);
            && lo + |r| <= |s| && r == s[lo..lo + |r|]
            && (forall i :: 0 <= i < lo ==> IsJsSpace(s[i]))
            && (forall i :: lo + |r| <= i < |s| ==> IsJsSpace(s[i]))
  {
    var r := Text.Strip(s, IsJsSpace);
    Text.StripIsContained(s, IsJsSpace);
    r
  }

  /** The synchronous part of `handleSend`, up to the await. A blank input or
      a send in progress leaves everything as it is and submits nothing.
      Otherwise the input is cleared, a user bubble carrying the trimmed text
      (id "user-" + stamp) goes in at position 0, the processing flag is raised, and the
      trimmed text is what gets submitted. */
  function BeginSend(st: ChatState, stamp: string, clock: string): (r: (ChatState, Option<string>))
    ensures r.1.None? <==> (st.isProcessing || forall i :: 0 <= i < |st.input| ==> IsJsSpace(st.input[i]))
    ensures r.1.None? ==> r.0 == st
    ensures r.1.Some? ==>
              && r.1.value == JsTrim(st.input)
              && r.1.value != []
              && !IsJsSpace(r.1.value[0]) && !IsJsSpace(r.1.value[|r.1.value| - 1])
              && Text.Contains(st.input, r.1.value)
              && r.0.input == []
              && r.0.isProcessing
              && |r.0.messages| == |st.messages| + 1
              && r.0.messages[0] == Message("user-" + stamp, r.1.value, true, clock)
              && r.0.messages[1..] == st.messages
  {
    var trimmed := JsTrim(st.input);
    if trimmed == [] || st.isProcessing then (st, None)
    else
      var userMsg := Message("user-" + stamp, trimmed, true, clock);
      (ChatState([], [userMsg] + st.messages, true), Some(trimmed))
  }

  /** The part of `handleSend` after the await: exactly one more bubble goes
      in at position 0, before whatever the list now holds (the reply, or the fixed error
      text when the call threw), and the processing flag drops. */
  function CompleteSend(st: ChatState, outcome: Outcome, stamp: string, clock: string): (r: ChatState)
    ensures r.input == st.input
    ensures !r.isProcessing
    ensures |r.messages| == |st.messages| + 1 && r.messages[1..] == st.messages
    ensures !r.messages[0].isUser && r.messages[0].timestamp == clock
    ensures outcome.Replied? ==> r.messages[0].text == outcome.text && r.messages[0].id == "system-" + stamp
    ensures outcome.Threw? ==> r.messages[0].text == "❌ Error processing transaction" && r.messages[0].id == "error-" + stamp
  {
    var reply := match outcome
      case Replied(text) => Message("system-" + stamp, text, false, clock)
      case Threw => Message("error-" + stamp, ErrorText, false, clock);
    st.(messages := [reply] + st.messages, isProcessing := false)
  }

  /** A transaction-list refresh reruns the effect: the whole list, optimistic
      bubbles included, is replaced by the rebuilt conversation. */
  function Refresh(st: ChatState, txs: seq<Transaction>, formatTime: Option<int> -> string, formatAmount: int -> string): (r: ChatState)
    ensures r.input == st.input && r.isProcessing == st.isProcessing
    ensures r.messages == Reconcile(txs, formatTime, formatAmount)
    ensures |r.messages| == 2 * |txs|
  {
    st.(messages := Reconcile(txs, formatTime, formatAmount))
  }

  /** A send started on a freshly rebuilt list puts its bubble at position
      0, directly before the system entry of the last transaction in the
      list, which is the oldest one when the list comes newest first. */
  lemma OptimisticBubbleBesideLastListed(st: ChatState, txs: seq<Transaction>,
                                         formatTime: Option<int> -> string, formatAmount: int -> string,
                                         stamp: string, clock: string)
    requires |txs| > 0
    requires !st.isProcessing && JsTrim(st.input) != []
    ensures var mid := BeginSend(Refresh(st, txs, formatTime, formatAmount), stamp, clock).0;
            && mid.messages[0] == Message("user-" + stamp, JsTrim(st.input), true, clock)
            && mid.messages[1] == SystemEntry(txs[|txs| - 1], formatTime, formatAmount)
  {
  }

  /** A whole send with no refresh in between: two bubbles at the head of
      the list, the reply (or error) before the user's trimmed text, the
      earlier list kept after them, the input cleared and the flag down
      again. */
  lemma SendRoundTrip(st: ChatState, outcome: Outcome, stamp1: string, clock1: string, stamp2: string, clock2: string)
    requires !st.isProcessing && JsTrim(st.input) != []
    ensures var (mid, sent) := BeginSend(st, stamp1, clock1);
            var done := CompleteSend(mid, outcome, stamp2, clock2);
            && sent == Some(JsTrim(st.input))
            && done.input == [] && !done.isProcessing
            && done.messages[2..] == st.messages
            && done.messages[1] == Message("user-" + stamp1, JsTrim(st.input), true, clock1)
            && done.messages[0].text == (if outcome.Replied? then outcome.text else ErrorText)
  {
  }

  /** Once the component has re-rendered with the processing flag raised, a
      second press does nothing until the first call settles. A press handled
      before that re-render runs against the earlier state and is not covered. */
  lemma NoDoubleSubmit(st: ChatState, stamp1: string, clock1: string, stamp2: string, clock2: string)
    ensures var mid := BeginSend(st, stamp1, clock1).0;
            BeginSend(mid, stamp2, clock2) == (mid, None)
  {
  }

  /** A refresh after a send drops the optimistic bubbles: the list is then
      exactly the conversation rebuilt from the transactions. */
  lemma RefreshSupersedesOptimistic(st: ChatState, outcome: Outcome, txs: seq<Transaction>,
                                    formatTime: Option<int> -> string, formatAmount: int -> string,
                                    stamp1: string, clock1: string, stamp2: string, clock2: string)
    ensures var mid := BeginSend(st, stamp1, clock1).0;
            var done := CompleteSend(mid, outcome, stamp2, clock2);
            Refresh(done, txs, formatTime, formatAmount).messages == Reconcile(txs, formatTime, formatAmount)
  {
  }
}
