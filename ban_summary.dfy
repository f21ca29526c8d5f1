/**
 * The driving-ban messages: each country's ban text is shortened to its
 * first sentence and sent as one message per country, in table order.
 */
module BanSummary {
  import opened PyText
  import opened DrivingBans

  /** `info.split('.')[0].strip() + '.'`: the first sentence, trimmed, with one full stop. */
  function Summary(info: string): (r: string)
    ensures |r| >= 1 && r[|r| - 1] == '.'
    ensures forall i :: 0 <= i < |r| - 1 ==> r[i] != '.'
    ensures |r| >= 2 ==> !IsSpace(r[0]) && !IsSpace(r[|r| - 2])
  {
    var first := FirstPiece(info, '.');
    StripKeepsOut(first, '.');
    Strip(first) + "."
  }

  /** The summary of a text is the trimmed text ahead of its first full stop, whatever follows. */
  lemma SummaryOfFirstSentence(first: string, rest: string)
    requires '.' !in first
    ensures Summary(first + "." + rest) == Strip(first) + "."
    ensures Summary(first) == Strip(first) + "."
  {
    FirstPieceBefore(first, '.', rest);
  }

  /** Summarising a summary changes nothing. */
  lemma SummaryIdempotent(info: string)
    ensures Summary(Summary(info)) == Summary(info)
  {
    var r := Summary(info);
    var t := r[..|r| - 1];
    assert r == t + ".";
    assert '.' !in t;
    FirstPieceBefore(t, '.', "");
    assert t + "." + "" == t + ".";
    StripFixed(t);
  }

  /** The text of the message announcing one country's ban, given its summary. */
  function BanMessage(country: string, summary: string): string {
    BanPrefix(country) + summary
  }

  /** The part of a ban message ahead of the summary. */
  function BanPrefix(country: string): string {
    "\U{1F69A} " + country + " (>7.5 t): "
  }

  /** A ban message built from a one-sentence summary names the country, then holds exactly that one sentence. */
  lemma BanMessageShape(country: string, summary: string)
    requires |summary| >= 1 && summary[|summary| - 1] == '.'
    requires forall i :: 0 <= i < |summary| - 1 ==> summary[i] != '.'
    ensures BanPrefix(country) <= BanMessage(country, summary)
    ensures BanMessage(country, summary)[|BanPrefix(country)|..] == summary
    ensures |BanMessage(country, summary)| > |BanPrefix(country)|
    ensures forall i :: |BanPrefix(country)| <= i < |BanMessage(country, summary)| - 1 ==>
              BanMessage(country, summary)[i] != '.'
    ensures BanMessage(country, summary)[|BanMessage(country, summary)| - 1] == '.'
  {
    var p, m := BanPrefix(country), BanMessage(country, summary);
    forall i | |p| <= i < |m| - 1 ensures m[i] != '.' {
      assert m[i] == summary[i - |p|];
    }
  }

  /** The messages for the first `n` countries of `order`, one each, in that order. */
  function BanMessages(order: seq<string>, text: map<string, string>, n: nat): (r: seq<string>)
    requires n <= |order|
    requires forall i :: 0 <= i < |order| ==> order[i] in text
    ensures |r| == n
  {
    if n == 0 then []
    else BanMessages(order, text, n - 1) + [BanMessage(order[n - 1], Summary(text[order[n - 1]]))]
  }

  /** The `i`-th message announces the `i`-th country of the order, with the summary of that country's text. */
  lemma {:induction false} BanMessageAt(order: seq<string>, text: map<string, string>, n: nat, i: nat)
    requires i < n <= |order|
    requires forall k :: 0 <= k < |order| ==> order[k] in text
    ensures BanMessages(order, text, n)[i] == BanMessage(order[i], Summary(text[order[i]]))
    decreases n
  {
    if i < n - 1 {
      BanMessageAt(order, text, n - 1, i);
    }
  }

  /**
   * The loop that sends the ban messages: for each country of the table,
   * in its order, the summary of its text and then the message.
   */
  method SendBanMessages(t: BanTable) returns (sent: seq<string>)
    requires forall i :: 0 <= i < |t.order| ==> t.order[i] in t.text
    ensures sent == BanMessages(t.order, t.text, |t.order|)
  {
    sent := [];
    for i := 0 to |t.order|
      invariant sent == BanMessages(t.order, t.text, i)
    {
      var country := t.order[i];
      var summary := Summary(t.text[country]);
      sent := sent + [BanMessage(country, summary)];
    }
  }
}
