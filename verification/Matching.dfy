/** What it takes for an order to answer for a command, in the numbers its strings denote. */
module Matching {
  import opened Contracts
  import opened Numerals
  import opened Decimals
  import opened Tables
  import opened Evidence
  import Caps
  import Text

  predicate Near(order: Order, item: Item, window: Time) {
    -window <= order.orderedAt - item.sentAt <= window || order.orderedAt - item.sentAt <= MIN_DURATION
  }

  /** A domestic order answers for a command exactly when the command has a context, side, stock, quantity
      and price are the same, the last two as numbers, and it is dated within the window of the send (or
      292 years or more before it). */
  lemma DomesticMatch(item: Item, order: Order, window: Time)
    requires item.scope == KISMock && 0 <= window < MAX_DURATION
    requires IsPositiveInteger(item.quantity) && IsPositiveInteger(item.price)
    requires IsPositiveInteger(order.quantity) && IsPositiveInteger(order.price)
    ensures Matches(item, order, window)
       <==> && item.contextPresent && order.side == item.side && order.stockCode == item.stockCode
            && NatValue(order.quantity) == NatValue(item.quantity) && NatValue(order.price) == NatValue(item.price)
            && Near(order, item, window)
  {
    hide IsPositiveInteger, SamePositiveInteger, NatValue, WithinWindow;
    Caps.SameIntegerIsEqual(order.quantity, item.quantity);
    Caps.SameIntegerIsEqual(order.price, item.price);
    WindowIsDistance(order.orderedAt, item.sentAt, window);
  }

  /** An overseas order likewise, with its symbol trimmed and a slash in it read as a dot, and prices
      compared as the fractions they denote. */
  lemma OverseasMatch(item: Item, order: Order, window: Time)
    requires item.scope == KISMockUS && 0 <= window < MAX_DURATION
    requires IsPositiveInteger(item.quantity) && IsPositiveDecimal(item.price)
    requires IsPositiveInteger(order.quantity) && IsPositiveDecimal(order.price)
    ensures Matches(item, order, window)
       <==> && item.contextPresent && order.side == item.side
            && NormalizeSymbol(order.stockCode) == item.stockCode
            && NatValue(order.quantity) == NatValue(item.quantity)
            && Caps.Value(order.price) == Caps.Value(item.price)
            && Near(order, item, window)
  {
    hide IsPositiveInteger, IsPositiveDecimal, SamePositiveInteger, SamePositiveDecimal, NatValue, WithinWindow,
         NormalizeSymbol;
    Caps.SameIntegerIsEqual(order.quantity, item.quantity);
    Caps.SameIsEqual(order.price, item.price);
    WindowIsDistance(order.orderedAt, item.sentAt, window);
  }

  lemma {:induction false} NothingTrimmed(s: string)
    requires forall i | 0 <= i < |s| :: !Text.IsSpace(s[i])
    ensures Text.TrimSpace(s) == s
  {
  }

  lemma {:induction false} PaddingIsDropped(s: string, c: char)
    requires Text.IsSpace(c)
    ensures Text.TrimSpace(s + [c]) == Text.TrimSpace(s) == Text.TrimSpace([c] + s)
  {
    assert (s + [c])[..|s|] == s;
    if s == "" {
      assert [c] + s == s + [c];
    } else {
      var t := [c] + s;
      assert t[1..] == s;
      if Text.IsSpace(s[|s| - 1]) {
        PaddingIsDropped(s[..|s| - 1], c);
        assert t[..|t| - 1] == [c] + s[..|s| - 1];
      }
    }
  }

  /** The broker's padding around a symbol does not count. */
  lemma PaddedSymbol(s: string, c: char)
    requires Text.IsSpace(c)
    ensures NormalizeSymbol(s + [c]) == NormalizeSymbol(s) == NormalizeSymbol([c] + s)
  {
    hide Text.TrimSpace, Text.IsSpace;
    PaddingIsDropped(s, c);
  }

  lemma SlashesAreDots(s: string)
    requires forall i | 0 <= i < |s| :: !Text.IsSpace(s[i])
    ensures |NormalizeSymbol(s)| == |s|
    ensures forall i | 0 <= i < |s| :: NormalizeSymbol(s)[i] == if s[i] == '/' then '.' else s[i]
  {
    hide Text.TrimSpace, Text.IsSpace;
    NothingTrimmed(s);
  }

  predicate Plain(s: string) {
    forall i | 0 <= i < |s| :: s[i] != '/' && !Text.IsSpace(s[i])
  }

  lemma PlainBetween(family: string, share: string, c: char)
    requires Plain(family) && Plain(share) && (c == '/' || c == '.')
    ensures NormalizeSymbol(family + [c] + share) == family + "." + share
  {
    var s := family + [c] + share;
    assert !Text.IsSpace(c);
    hide NormalizeSymbol, Text.IsSpace;
    SlashesAreDots(s);
  }

  /** A share class reads the same whether the broker writes it with a slash or with a dot. */
  lemma ClassSharesAgree(family: string, share: string)
    requires Plain(family) && Plain(share)
    ensures NormalizeSymbol(family + "/" + share) == family + "." + share
    ensures NormalizeSymbol(family + "." + share) == family + "." + share
  {
    hide NormalizeSymbol, Plain;
    PlainBetween(family, share, '/');
    PlainBetween(family, share, '.');
  }
}
