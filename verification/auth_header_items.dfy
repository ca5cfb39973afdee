/**
  The tokenizer of a `WWW-Authenticate` challenge header (KeyVaultClient/KeyVault/AuthHeader.swift,
  `extractItems`).

  The header is walked character by character. Outside quotes, a space ends the pending text,
  and `=` and `,` end it and are emitted as one-character items; blank pending text is dropped.
  The text between two quotes is emitted as one item, blank or not. A backslash stops the next
  character from counting as a quote or delimiter, but both characters stay in the item.

  `Scan(h, n)` is the scanner state after the first `n` characters; `TokenSpans(h)` the
  positions of the items and `Tokenize(h)` their text. `ExtractItems` is the loop itself,
  proved equal to `Tokenize`.
*/
module AuthHeaderItems {

  /** Foundation's `whitespacesAndNewlines`: Unicode category Z, tab, U+000A to U+000D and U+0085. */
  predicate IsWhitespace(c: char) {
    || c == ' ' || ('\t' <= c <= '\r') || c == '\U{85}' || c == '\U{A0}' || c == '\U{1680}'
    || ('\U{2000}' <= c <= '\U{200A}') || c == '\U{2028}' || c == '\U{2029}' || c == '\U{202F}'
    || c == '\U{205F}' || c == '\U{3000}'
  }

  /** `isNotBlankOrEmpty`: the text holds a character that is not whitespace. */
  function IsNotBlankOrEmpty(s: string): (r: bool)
    ensures r <==> exists i :: 0 <= i < |s| && !IsWhitespace(s[i])
  {
    if |s| == 0 then false
    else if !IsWhitespace(s[0]) then true
    else
      var rest := IsNotBlankOrEmpty(s[1..]);
      assert forall i :: 0 < i < |s| ==> s[i] == s[1..][i - 1];
      rest
  }

  /** The half-open range `[start, end)` of an item in the header. */
  datatype Span = Span(start: nat, end: nat)

  /**
    The loop variables that survive an iteration of `extractItems`: the start of the pending
    text (`stIdx`), the two flags, and the items emitted so far, as spans.
  */
  datatype Scanner = Scanner(stIdx: nat, skipNext: bool, quoted: bool, spans: seq<Span>)

  /** Which branch of the per-character if-chain a character takes. */
  datatype Action =
    | Escaped       // the character after a backslash
    | Backslash
    | InsideQuotes  // any other character between quotes
    | CloseQuote
    | OpenQuote
    | Space
    | Delimiter     // `=` or `,`
    | Plain

  function Classify(s: Scanner, c: char): Action {
    if s.skipNext then Escaped
    else if c == '\\' then Backslash
    else if s.quoted then (if c == '"' then CloseQuote else InsideQuotes)
    else if c == '"' then OpenQuote
    else if c == ' ' then Space
    else if c == '=' || c == ',' then Delimiter
    else Plain
  }

  /** The pending text `[st, i)` as an item, unless it is blank. */
  function Pending(h: string, st: nat, i: nat): seq<Span>
    requires st <= i <= |h|
  {
    if IsNotBlankOrEmpty(h[st..i]) then [Span(st, i)] else []
  }

  /** One iteration of the loop, on the character at `i`. */
  function Step(h: string, i: nat, s: Scanner): Scanner
    requires s.stIdx <= i < |h|
  {
    match Classify(s, h[i])
    case Escaped => s.(skipNext := false)
    case Backslash => s.(skipNext := true)
    case InsideQuotes => s
    case Plain => s
    case CloseQuote => Scanner(i + 1, false, false, s.spans + [Span(s.stIdx, i)])
    case OpenQuote => Scanner(i + 1, false, true, s.spans)
    case Space => Scanner(i + 1, false, false, s.spans + Pending(h, s.stIdx, i))
    case Delimiter => Scanner(i + 1, false, false, s.spans + Pending(h, s.stIdx, i) + [Span(i, i + 1)])
  }

  /** Every span is a range of `[0, bound)`. */
  predicate Within(spans: seq<Span>, bound: nat) {
    forall k :: 0 <= k < |spans| ==> spans[k].start <= spans[k].end <= bound
  }

  /** The spans lie in `[0, bound)`, in input order and without overlap. */
  predicate Ordered(spans: seq<Span>, bound: nat) {
    && Within(spans, bound)
    && (forall k :: 0 < k < |spans| ==> spans[k - 1].end <= spans[k].start)
  }

  /** A span whose text is enclosed in a pair of quote characters of the header. */
  predicate QuoteEnclosed(h: string, sp: Span) {
    0 < sp.start <= sp.end < |h| && h[sp.start - 1] == '"' && h[sp.end] == '"'
  }

  /** An item is never blank text unless it came from between two quotes. */
  predicate Meaningful(h: string, sp: Span) {
    sp.start <= sp.end <= |h| && (IsNotBlankOrEmpty(h[sp.start..sp.end]) || QuoteEnclosed(h, sp))
  }

  /**
    What holds of the scanner after `n` characters: the items are ordered and end before the
    pending text, which starts right after a quote while inside quotes.
  */
  predicate Consistent(h: string, n: nat, s: Scanner) {
    && s.stIdx <= n <= |h|
    && Ordered(s.spans, s.stIdx)
    && (s.quoted ==> 0 < s.stIdx && h[s.stIdx - 1] == '"')
    && (forall sp :: sp in s.spans ==> Meaningful(h, sp))
  }

  lemma OrderedSnoc(spans: seq<Span>, sp: Span, bound: nat)
    requires Ordered(spans, sp.start) && sp.start <= sp.end <= bound
    ensures Ordered(spans + [sp], bound)
  {
  }

  /** Appending a meaningful item keeps every item meaningful. */
  lemma MeaningfulSnoc(h: string, spans: seq<Span>, sp: Span)
    requires forall x :: x in spans ==> Meaningful(h, x)
    requires Meaningful(h, sp)
    ensures forall x :: x in spans + [sp] ==> Meaningful(h, x)
  {
  }

  /** The pending text, when kept as an item at a space or delimiter, keeps the state consistent. */
  lemma PendingKeepsConsistent(h: string, i: nat, s: Scanner)
    requires i < |h| && Consistent(h, i, s)
    ensures Ordered(s.spans + Pending(h, s.stIdx, i), i)
    ensures forall x :: x in s.spans + Pending(h, s.stIdx, i) ==> Meaningful(h, x)
  {
    if IsNotBlankOrEmpty(h[s.stIdx..i]) {
      OrderedSnoc(s.spans, Span(s.stIdx, i), i);
      MeaningfulSnoc(h, s.spans, Span(s.stIdx, i));
    } else {
      assert s.spans + Pending(h, s.stIdx, i) == s.spans;
    }
  }

  lemma StepKeepsConsistent(h: string, i: nat, s: Scanner)
    requires i < |h| && Consistent(h, i, s)
    ensures Consistent(h, i + 1, Step(h, i, s))
  {
    match Classify(s, h[i])
    case Escaped =>
    case Backslash =>
    case InsideQuotes =>
    case Plain =>
    case CloseQuote =>
      OrderedSnoc(s.spans, Span(s.stIdx, i), i + 1);
      MeaningfulSnoc(h, s.spans, Span(s.stIdx, i));
    case OpenQuote =>
    case Space =>
      PendingKeepsConsistent(h, i, s);
    case Delimiter =>
      var before := s.spans + Pending(h, s.stIdx, i);
      PendingKeepsConsistent(h, i, s);
      assert IsNotBlankOrEmpty(h[i..i + 1]) by { assert h[i..i + 1][0] == h[i]; }
      OrderedSnoc(before, Span(i, i + 1), i + 1);
      MeaningfulSnoc(h, before, Span(i, i + 1));
  }

  /** The scanner state after the first `n` characters. */
  function Scan(h: string, n: nat): (s: Scanner)
    requires n <= |h|
    ensures s.stIdx <= n
  {
    if n == 0 then Scanner(0, false, false, [])
    else Step(h, n - 1, Scan(h, n - 1))
  }

  /** Every scanner state the loop reaches is `Consistent`. */
  lemma {:induction false} ScanConsistent(h: string, n: nat)
    requires n <= |h|
    ensures Consistent(h, n, Scan(h, n))
  {
    if n > 0 {
      ScanConsistent(h, n - 1);
      StepKeepsConsistent(h, n - 1, Scan(h, n - 1));
    }
  }

  /** The spans of all items: those of the whole scan, then the non-blank text left pending. */
  function TokenSpans(h: string): (spans: seq<Span>)
    ensures Ordered(spans, |h|)
    ensures forall sp :: sp in spans ==> Meaningful(h, sp)
  {
    var s := Scan(h, |h|);
    ScanConsistent(h, |h|);
    s.spans + Pending(h, s.stIdx, |h|)
  }

  function Texts(h: string, spans: seq<Span>): (items: seq<string>)
    requires Within(spans, |h|)
  {
    seq(|spans|, k requires 0 <= k < |spans| => h[spans[k].start..spans[k].end])
  }

  lemma TextsSnoc(h: string, spans: seq<Span>, sp: Span)
    requires Within(spans, |h|) && sp.start <= sp.end <= |h|
    ensures Within(spans + [sp], |h|)
    ensures Texts(h, spans + [sp]) == Texts(h, spans) + [h[sp.start..sp.end]]
  {
    assert forall k :: 0 <= k < |spans| ==> (spans + [sp])[k] == spans[k];
    assert (spans + [sp])[|spans|] == sp;
  }

  /** The items `extractItems` returns for `h`. */
  function Tokenize(h: string): (items: seq<string>)
  {
    Texts(h, TokenSpans(h))
  }

  /** `extractItems` (AuthHeader.swift:62-121), with the loop and flags of the source. */
  method ExtractItems(authHeader: string) returns (result: seq<string>)
    ensures result == Tokenize(authHeader)
  {
    result := [];
    var stIdx, curIdx := 0, 0;
    var skipNext, quoted := false, false;
    ghost var spans: seq<Span> := [];
    while curIdx < |authHeader|
      invariant curIdx <= |authHeader|
      invariant Scan(authHeader, curIdx) == Scanner(stIdx, skipNext, quoted, spans)
      invariant Within(spans, |authHeader|)
      invariant result == Texts(authHeader, spans)
    {
      ghost var next := Step(authHeader, curIdx, Scanner(stIdx, skipNext, quoted, spans));
      assert Scan(authHeader, curIdx + 1) == next;
      var c := authHeader[curIdx];
      var advanceSt, collect, collect2 := false, false, false;
      if skipNext {
        skipNext := false;
      } else if c == '\\' {
        skipNext := true;
      } else if quoted {
        if c == '"' {
          quoted := false;
          TextsSnoc(authHeader, spans, Span(stIdx, curIdx));
          result := result + [authHeader[stIdx..curIdx]];
          spans := spans + [Span(stIdx, curIdx)];
          advanceSt := true;
        }
      } else if c == '"' {
        quoted := true;
        advanceSt := true;
      } else if c == ' ' {
        collect := true;
      } else if c == '=' {
        collect2 := true;
      } else if c == ',' {
        collect2 := true;
      }

      if collect || collect2 {
        var sub := authHeader[stIdx..curIdx];
        if IsNotBlankOrEmpty(sub) {
          TextsSnoc(authHeader, spans, Span(stIdx, curIdx));
          result := result + [sub];
          spans := spans + [Span(stIdx, curIdx)];
        }
        advanceSt := true;
      }

      if collect2 {
        TextsSnoc(authHeader, spans, Span(curIdx, curIdx + 1));
        result := result + [authHeader[curIdx..curIdx + 1]];
        spans := spans + [Span(curIdx, curIdx + 1)];
      }

      curIdx := curIdx + 1;
      if advanceSt {
        stIdx := curIdx;
      }
      assert Scanner(stIdx, skipNext, quoted, spans) == next;
    }

    var sub := authHeader[stIdx..curIdx];
    if IsNotBlankOrEmpty(sub) {
      TextsSnoc(authHeader, spans, Span(stIdx, curIdx));
      result := result + [sub];
      spans := spans + [Span(stIdx, curIdx)];
    }
    assert spans == TokenSpans(authHeader);
  }

  /** Scanning further only appends items, each starting at or after the pending text. */
  lemma {:induction false} ScanExtends(h: string, n: nat, m: nat)
    requires n <= m <= |h|
    ensures Scan(h, n).stIdx <= Scan(h, m).stIdx
    ensures Scan(h, n).spans <= Scan(h, m).spans
    ensures forall k :: |Scan(h, n).spans| <= k < |Scan(h, m).spans| ==>
              Scan(h, n).stIdx <= Scan(h, m).spans[k].start
  {
    if n < m {
      ScanExtends(h, n, m - 1);
    }
  }

  /** Every item of the scan after `n` characters is an item of the whole header. */
  lemma ScanPrefixOfTokens(h: string, n: nat)
    requires n <= |h|
    ensures Scan(h, n).spans <= TokenSpans(h)
  {
    ScanExtends(h, n, |h|);
  }

  /** The empty header has no items. */
  lemma TokenizeEmpty()
    ensures Tokenize("") == []
  {
  }

  /**
    Outside quotes, `=` and `,` are items of their own, right after the pending text when that
    is not blank.
  */
  lemma DelimiterIsOwnItem(h: string, i: nat)
    requires i < |h| && (h[i] == '=' || h[i] == ',')
    requires !Scan(h, i).quoted && !Scan(h, i).skipNext
    ensures Span(i, i + 1) in TokenSpans(h)
    ensures var st := Scan(h, i).stIdx;
            IsNotBlankOrEmpty(h[st..i]) ==>
              exists k :: 0 < k < |TokenSpans(h)| && TokenSpans(h)[k - 1] == Span(st, i) && TokenSpans(h)[k] == Span(i, i + 1)
  {
    var s, all := Scan(h, i), TokenSpans(h);
    var after := Scan(h, i + 1).spans;
    assert after == s.spans + Pending(h, s.stIdx, i) + [Span(i, i + 1)];
    ScanPrefixOfTokens(h, i + 1);
    assert all[|after| - 1] == Span(i, i + 1);
    if IsNotBlankOrEmpty(h[s.stIdx..i]) {
      assert all[|after| - 2] == Span(s.stIdx, i);
    }
  }

  /**
    Outside quotes a space is in no item; it ends the pending text, which becomes an item
    unless it is blank.
  */
  lemma SpaceEndsItem(h: string, i: nat)
    requires i < |h| && h[i] == ' '
    requires !Scan(h, i).quoted && !Scan(h, i).skipNext
    ensures forall sp :: sp in TokenSpans(h) ==> sp.end <= i || i < sp.start
    ensures var st := Scan(h, i).stIdx;
            IsNotBlankOrEmpty(h[st..i]) ==> Span(st, i) in TokenSpans(h)
  {
    var s, next := Scan(h, i), Scan(h, i + 1);
    ScanConsistent(h, i);
    assert next.spans == s.spans + Pending(h, s.stIdx, i) && next.stIdx == i + 1;
    ScanPrefixOfTokens(h, i + 1);
    var all := TokenSpans(h);
    forall k | 0 <= k < |all|
      ensures all[k].end <= i || i < all[k].start
    {
      if k < |s.spans| {
        assert all[k] == s.spans[k];
      } else if k < |next.spans| {
        assert all[k] == Span(s.stIdx, i);
      } else {
        LaterItemsStartAfter(h, i + 1, k);
      }
    }
    if IsNotBlankOrEmpty(h[s.stIdx..i]) {
      assert all[|s.spans|] == Span(s.stIdx, i);
    }
  }

  /** Items not yet emitted after `n` characters start at or after the pending text. */
  lemma LaterItemsStartAfter(h: string, n: nat, k: nat)
    requires n <= |h| && |Scan(h, n).spans| <= k < |TokenSpans(h)|
    ensures Scan(h, n).stIdx <= TokenSpans(h)[k].start
  {
    ScanExtends(h, n, |h|);
  }

  /** Between two quotes nothing changes while no quote or backslash comes. */
  lemma {:induction false} QuotedRunUnchanged(h: string, i: nat, n: nat)
    requires i < n <= |h| && Scan(h, i + 1).quoted && !Scan(h, i + 1).skipNext
    requires forall k :: i < k < n ==> h[k] != '"' && h[k] != '\\'
    ensures Scan(h, n) == Scan(h, i + 1)
  {
    if n > i + 1 {
      QuotedRunUnchanged(h, i, n - 1);
    }
  }

  /**
    The text strictly between an opening and the next closing quote is exactly one item, even
    when it is empty or holds spaces, `=` or `,`; text pending before the opening quote is
    dropped.
  */
  lemma QuotedTextIsOneItem(h: string, i: nat, j: nat)
    requires i < j < |h| && h[i] == '"' && h[j] == '"'
    requires !Scan(h, i).quoted && !Scan(h, i).skipNext
    requires forall k :: i < k < j ==> h[k] != '"' && h[k] != '\\'
    ensures Scan(h, i + 1).spans == Scan(h, i).spans
    ensures Span(i + 1, j) in TokenSpans(h)
  {
    QuotedRunUnchanged(h, i, j);
    assert Scan(h, j + 1).spans == Scan(h, i).spans + [Span(i + 1, j)];
    ScanPrefixOfTokens(h, j + 1);
    assert TokenSpans(h)[|Scan(h, i).spans|] == Span(i + 1, j);
  }

  /**
    A backslash and the character after it change nothing: neither ends, opens or closes an
    item, so both stay in the text of the item they are in.
  */
  lemma EscapedPairChangesNothing(h: string, i: nat)
    requires i + 1 < |h| && h[i] == '\\' && !Scan(h, i).skipNext
    ensures Scan(h, i + 2) == Scan(h, i)
  {
    assert Scan(h, i + 1) == Scan(h, i).(skipNext := true);
  }
}
