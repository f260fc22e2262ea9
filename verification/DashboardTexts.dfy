/** What the texts of the dashboard's transaction list say, in terms of the transactions. */
module DashboardTexts {
  import opened Wrappers
  import opened Bytes
  import opened Addresses
  import opened Transactions
  import opened Texts
  import opened Dashboard

  predicate AllBlank(s: string) {
    forall i | 0 <= i < |s| :: IsSpace(s[i])
  }

  /** No blank at either end. */
  predicate Unpadded(s: string) {
    s != "" ==> !IsSpace(s[0]) && !IsSpace(s[|s| - 1])
  }

  /** The white space of Unicode. */
  lemma BlanksExactly(c: char)
    ensures IsSpace(c) <==>
            var code := c as int;
            9 <= code <= 13 || code == 32 || code == 133 || code == 160 || code == 5760 || 8192 <= code <= 8202 ||
            code == 8232 || code == 8233 || code == 8239 || code == 8287 || code == 12288
  {
  }

  lemma OneMoreAround(s: string, first: string, front: string, text: string, back: string, last: string)
    requires |first| + |last| == 1 && |first| <= |s| && s[..|first|] == first
    requires |last| <= |s| - |first| && s[|s| - |last|..] == last
    requires s[|first|..|s| - |last|] == front + text + back
    ensures s == (first + front) + text + (back + last)
    ensures first == [] ==> first + front == front
    ensures last == [] ==> back + last == back
  {
    assert s == first + s[|first|..|s| - |last|] + last;
  }

  /** Trimming takes blanks off both ends and nothing else. */
  lemma {:induction false} TrimmedExactly(s: string) returns (front: string, back: string)
    ensures s == front + TrimSpace(s) + back && AllBlank(front) && AllBlank(back) && Unpadded(TrimSpace(s))
  {
    hide IsSpace;
    if s == "" {
      front, back := "", "";
    } else if IsSpace(s[0]) {
      front, back := TrimmedExactly(s[1..]);
      OneMoreAround(s, [s[0]], front, TrimSpace(s), back, []);
      front := [s[0]] + front;
    } else if IsSpace(s[|s| - 1]) {
      front, back := TrimmedExactly(s[..|s| - 1]);
      OneMoreAround(s, [], front, TrimSpace(s), back, [s[|s| - 1]]);
      back := back + [s[|s| - 1]];
    } else {
      front, back := "", "";
    }
  }

  /** The shown text is the address without the blanks around it. */
  ghost predicate ShowsText(shown: string, s: string) {
    (exists front, back :: s == front + shown + back && AllBlank(front) && AllBlank(back)) && Unpadded(shown) &&
    (Unpadded(s) ==> shown == s)
  }

  lemma TrimShows(s: string)
    ensures ShowsText(TrimSpace(s), s)
  {
    hide IsSpace;
    var front, back := TrimmedExactly(s);
  }

  /** A decimal number with an optional minus sign. */
  function ReadInteger(s: string): (v: Option<int>) {
    if s != "" && s[0] == '-' then
      var digits := ReadDecimal(s[1..]);
      if digits.None? then None else Some(-(digits.value as int))
    else
      var digits := ReadDecimal(s);
      if digits.None? then None else Some(digits.value)
  }

  lemma ValueReadsBack(v: int)
    ensures ReadInteger(BigIntText(v)) == Some(v)
  {
    var n := if v < 0 then -v else v;
    DecimalReadsBack(n);
    assert Itoa(n)[0] in Itoa(n);
    assert ("-" + Itoa(n))[1..] == Itoa(n);
  }

  /**
   * Every transaction is shown as it is: its four addresses up to blanks around them, its value in decimal, its hash,
   * or the raw one when there is none, in hexadecimal, and its nonce and flags.
   */
  lemma TransactionShown(index: nat, tx: Transaction)
    ensures var v := TxViewOf(index, tx);
            v.index == index && ShowsText(v.sender, tx.sender) && ShowsText(v.recipient, tx.recipient) &&
            ShowsText(v.originalSender, tx.originalSender) && ShowsText(v.finalRecipient, tx.finalRecipient) &&
            ReadInteger(v.value) == Some(tx.value) &&
            ReadHex(v.txHash) == Some(if tx.txHash != [] then tx.txHash else tx.rawTxHash) && v.nonce == tx.nonce &&
            v.relayed == tx.relayed && v.hasBroker == tx.hasBroker && v.senderIsBroker == tx.senderIsBroker
  {
    hide TrimSpace, BigIntText, HexEncode, ShowsText;
    TrimShows(tx.sender);
    TrimShows(tx.recipient);
    TrimShows(tx.originalSender);
    TrimShows(tx.finalRecipient);
    ValueReadsBack(tx.value);
    HexReadsBack(tx.txHash);
    HexReadsBack(tx.rawTxHash);
  }
}
