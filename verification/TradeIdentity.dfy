/** The keys of src/tradeIdentity.ts and the per-wallet key of src/copyTrader.ts. */
module TradeIdentity {
  import opened Options

  predicate IsSpace(c: char) {
    c == ' ' || c == '\t' || c == '\n' || c == '\r'
  }

  function Trim(s: string): string
    decreases |s|
  {
    if s != [] && IsSpace(s[0]) then Trim(s[1..])
    else if s != [] && IsSpace(s[|s| - 1]) then Trim(s[..|s| - 1])
    else s
  }

  function Upper(s: string): string {
    seq(|s|, i requires 0 <= i < |s| => if 'a' <= s[i] <= 'z' then s[i] - 'a' + 'A' else s[i])
  }

  /** `normalizeOutcomeLabel` without an outcome index. */
  function OutcomeLabel(outcome: string): string {
    var name := Upper(Trim(outcome));
    if name != "" then name else "UNKNOWN"
  }

  /** `buildPositionKey`; a missing field is the empty string. */
  function PositionKey(marketId: string, tokenId: string, outcome: string): string {
    if Trim(tokenId) != "" then "token:" + Trim(tokenId)
    else "market:" + Trim(marketId) + ":" + OutcomeLabel(outcome)
  }

  /** The no-repeat key of one execution wallet. */
  function ExecutionKey(positionKey: string, tradingWalletId: Option<string>): string {
    positionKey + "::exec:" + tradingWalletId.GetOr("legacy")
  }

  ghost predicate IsExecutionKey(key: string) {
    exists base, wallet :: key == ExecutionKey(base, Some(wallet))
  }

  /** Token ids are digit strings; all that matters is that they hold no colon. */
  predicate PlainToken(tokenId: string) {
    ':' !in tokenId
  }

  lemma TokenKeyColon(tokenId: string)
    requires PlainToken(tokenId)
    ensures forall i :: 0 <= i < |"token:" + tokenId| && ("token:" + tokenId)[i] == ':' ==> i == 5
  {
  }

  /** An execution key is never the token key that the store also looks under, so two
      execution wallets never share a record through the token id. */
  lemma ExecutionKeyIsNoTokenKey(key: string, tokenId: string)
    requires IsExecutionKey(key) && PlainToken(tokenId)
    ensures key != "token:" + tokenId
  {
    var base, wallet :| key == ExecutionKey(base, Some(wallet));
    assert key[|base|] == ':' && key[|base| + 1] == ':';
    TokenKeyColon(tokenId);
  }

  lemma TokenEndsAtColon(tokenId: string, wallet: string)
    requires PlainToken(tokenId)
    ensures var key := ExecutionKey("token:" + tokenId, Some(wallet));
            && |key| == 6 + |tokenId| + 7 + |wallet|
            && key[6 + |tokenId|] == ':'
            && (forall i :: 6 <= i < 6 + |tokenId| ==> key[i] != ':')
            && key[6..6 + |tokenId|] == tokenId && key[6 + |tokenId| + 7..] == wallet
  {
  }

  lemma TokenKeysDistinct(token1: string, wallet1: string, token2: string, wallet2: string)
    requires PlainToken(token1) && PlainToken(token2)
    requires ExecutionKey("token:" + token1, Some(wallet1)) == ExecutionKey("token:" + token2, Some(wallet2))
    ensures token1 == token2 && wallet1 == wallet2
  {
    TokenEndsAtColon(token1, wallet1);
    TokenEndsAtColon(token2, wallet2);
  }

  /** Two trades that name a token share an execution key exactly if, white space apart, the tokens and the
      execution wallets are the same; market and outcome do not matter. */
  lemma ExecutionKeysDistinct(market1: string, token1: string, outcome1: string, wallet1: Option<string>,
                              market2: string, token2: string, outcome2: string, wallet2: Option<string>)
    requires Trim(token1) != "" && Trim(token2) != "" && PlainToken(Trim(token1)) && PlainToken(Trim(token2))
    ensures ExecutionKey(PositionKey(market1, token1, outcome1), wallet1)
            == ExecutionKey(PositionKey(market2, token2, outcome2), wallet2)
            <==> Trim(token1) == Trim(token2) && wallet1.GetOr("legacy") == wallet2.GetOr("legacy")
  {
    var w1, w2 := wallet1.GetOr("legacy"), wallet2.GetOr("legacy");
    assert ExecutionKey("token:" + Trim(token1), wallet1) == ExecutionKey("token:" + Trim(token1), Some(w1));
    assert ExecutionKey("token:" + Trim(token2), wallet2) == ExecutionKey("token:" + Trim(token2), Some(w2));
    if ExecutionKey("token:" + Trim(token1), Some(w1)) == ExecutionKey("token:" + Trim(token2), Some(w2)) {
      TokenKeysDistinct(Trim(token1), w1, Trim(token2), w2);
    }
  }

  // ---------------------------------------------------------------- labels, and keys without a token

  predicate Blank(s: string) {
    forall i :: 0 <= i < |s| ==> s[i] in {' ', '\t', '\n', '\r'}
  }

  /** Trimming drops blanks at both ends, and all of them. */
  lemma {:induction false} TrimExactly(s: string) returns (left: string, right: string)
    ensures s == left + Trim(s) + right && Blank(left) && Blank(right)
    ensures var t := Trim(s);
            t != [] ==> t[0] !in {' ', '\t', '\n', '\r'} && t[|t| - 1] !in {' ', '\t', '\n', '\r'}
    decreases |s|
  {
    TrimStep(s);
    hide Trim;
    if s != [] && IsSpace(s[0]) {
      left, right := TrimExactly(s[1..]);
      left := [s[0]] + left;
    } else if s != [] && IsSpace(s[|s| - 1]) {
      left, right := TrimExactly(s[..|s| - 1]);
      right := right + [s[|s| - 1]];
    } else {
      left, right := [], [];
    }
  }

  lemma TrimStep(s: string)
    ensures s != [] && IsSpace(s[0]) ==> Trim(s) == Trim(s[1..]) && s == [s[0]] + s[1..]
    ensures s != [] && !IsSpace(s[0]) && IsSpace(s[|s| - 1]) ==>
              Trim(s) == Trim(s[..|s| - 1]) && s == s[..|s| - 1] + [s[|s| - 1]]
    ensures s == [] || (!IsSpace(s[0]) && !IsSpace(s[|s| - 1])) ==> Trim(s) == s
  {
  }

  /** Labels ignore case: letters are raised one by one and nothing else changes; a blank outcome is unknown. */
  lemma LabelExactly(outcome: string, i: nat)
    ensures var name, shown := Trim(outcome), OutcomeLabel(outcome);
            if name == "" then shown == "UNKNOWN"
            else
              && |shown| == |name|
              && (i < |name| && 'a' <= name[i] <= 'z' ==>
                    shown[i] as int - 'A' as int == name[i] as int - 'a' as int)
              && (i < |name| && !('a' <= name[i] <= 'z') ==> shown[i] == name[i])
  {
  }

  lemma MarketEndsAtColon(market: string, shown: string, wallet: string)
    requires ':' !in market && ':' !in shown
    ensures var key := "market:" + market + ":" + shown + "::exec:" + wallet;
            && |key| == 8 + |market| + |shown| + 7 + |wallet|
            && key[7 + |market|] == ':' && key[8 + |market| + |shown|] == ':'
            && (forall i :: 7 <= i < 7 + |market| ==> key[i] != ':')
            && (forall i :: 8 + |market| <= i < 8 + |market| + |shown| ==> key[i] != ':')
            && key[7..7 + |market|] == market && key[8 + |market|..8 + |market| + |shown|] == shown
            && key[8 + |market| + |shown| + 7..] == wallet
  {
  }

  lemma MarketKeysEqual(market1: string, label1: string, wallet1: string,
                        market2: string, label2: string, wallet2: string)
    requires ':' !in market1 && ':' !in label1 && ':' !in market2 && ':' !in label2
    requires "market:" + market1 + ":" + label1 + "::exec:" + wallet1
             == "market:" + market2 + ":" + label2 + "::exec:" + wallet2
    ensures market1 == market2 && label1 == label2 && wallet1 == wallet2
  {
    MarketEndsAtColon(market1, label1, wallet1);
    MarketEndsAtColon(market2, label2, wallet2);
    assert |market1| == |market2|;
    assert |label1| == |label2|;
  }

  /** Two trades without a token share an execution key exactly if market, outcome shown and execution wallet are the
      same (for markets and outcomes without a colon), and none with a trade that names a token. */
  lemma MarketKeysDistinct(market1: string, token1: string, outcome1: string, wallet1: Option<string>,
                           market2: string, token2: string, outcome2: string, wallet2: Option<string>)
    requires Trim(token1) == "" && ':' !in Trim(market1) && ':' !in OutcomeLabel(outcome1)
    requires ':' !in Trim(market2) && ':' !in OutcomeLabel(outcome2)
    ensures ExecutionKey(PositionKey(market1, token1, outcome1), wallet1)
            == ExecutionKey(PositionKey(market2, token2, outcome2), wallet2)
            <==> Trim(token2) == "" && Trim(market1) == Trim(market2)
                 && OutcomeLabel(outcome1) == OutcomeLabel(outcome2)
                 && wallet1.GetOr("legacy") == wallet2.GetOr("legacy")
  {
    hide Trim, OutcomeLabel;
    var key1 := ExecutionKey(PositionKey(market1, token1, outcome1), wallet1);
    var key2 := ExecutionKey(PositionKey(market2, token2, outcome2), wallet2);
    var w1, w2 := wallet1.GetOr("legacy"), wallet2.GetOr("legacy");
    assert key1 == "market:" + Trim(market1) + ":" + OutcomeLabel(outcome1) + "::exec:" + w1;
    if Trim(token2) != "" {
      assert key1[0] == 'm' && key2[0] == 't';
    } else {
      assert key2 == "market:" + Trim(market2) + ":" + OutcomeLabel(outcome2) + "::exec:" + w2;
      if key1 == key2 {
        MarketKeysEqual(Trim(market1), OutcomeLabel(outcome1), w1, Trim(market2), OutcomeLabel(outcome2), w2);
      }
    }
  }
}
