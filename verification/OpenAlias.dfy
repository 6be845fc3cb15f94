/**
 The OA1 record parser: quote-aware splitting on semicolons, backslash-space
 escapes, and the record they are read into.
 */
module OpenAlias {
  import opened Wrappers
  import opened Text

  // ---------------------------------------------------------------------
  // The string operations the parser calls
  // ---------------------------------------------------------------------

  /** The Unicode White_Space property, which is what `trim` removes. */
  predicate IsSpace(c: char) {
    || '\t' <= c <= '\r' || c == ' ' || c == '\U{0085}' || c == '\U{00A0}' || c == '\U{1680}'
    || '\U{2000}' <= c <= '\U{200A}' || c == '\U{2028}' || c == '\U{2029}'
    || c == '\U{202F}' || c == '\U{205F}' || c == '\U{3000}'
  }

  function TrimStart(s: string): string {
    if s != "" && IsSpace(s[0]) then TrimStart(s[1..]) else s
  }

  function TrimEnd(s: string): string {
    if s != "" && IsSpace(s[|s| - 1]) then TrimEnd(s[..|s| - 1]) else s
  }

  function Trim(s: string): string {
    TrimEnd(TrimStart(s))
  }

  /** Every backslash-space, from the left, becomes a space. */
  function DecodeEscapes(s: string): string {
    if s == "" then ""
    else if |s| >= 2 && s[0] == '\\' && s[1] == ' ' then " " + DecodeEscapes(s[2..])
    else [s[0]] + DecodeEscapes(s[1..])
  }

  predicate EndsWithEscape(s: string) {
    |s| >= 2 && s[|s| - 2..] == "\\ "
  }

  // ---------------------------------------------------------------------
  // Splitting into pairs
  // ---------------------------------------------------------------------

  /** The quote state after reading `s` from state `inQuotes`. */
  function QuotesAfter(s: string, inQuotes: bool): bool {
    if s == "" then inQuotes
    else QuotesAfter(s[1..], if s[0] == '"' then !inQuotes else inQuotes)
  }

  /** The raw segments between semicolons that stand outside quotes; never empty. */
  function Segments(s: string, inQuotes: bool): (segments: seq<string>)
    ensures segments != []
  {
    if s == "" then [""]
    else if s[0] == ';' && !inQuotes then [""] + Segments(s[1..], inQuotes)
    else Prepend([s[0]], Segments(s[1..], if s[0] == '"' then !inQuotes else inQuotes))
  }

  /** `text` put in front of the first segment. */
  function Prepend(text: string, segments: seq<string>): (r: seq<string>)
    requires segments != []
    ensures r != []
  {
    [text + segments[0]] + segments[1..]
  }

  /** A segment without leading whitespace, dropped when nothing is left. */
  function Kept(segment: string): seq<string> {
    if TrimStart(segment) == "" then [] else [TrimStart(segment)]
  }

  function KeptAll(segments: seq<string>): seq<string> {
    if segments == [] then [] else Kept(segments[0]) + KeptAll(segments[1..])
  }

  function Pairs(body: string): seq<string> {
    KeptAll(Segments(body, false))
  }

  /** The index loop over the record body. */
  method SplitPairs(body: string) returns (pairs: seq<string>)
    ensures pairs == Pairs(body)
  {
    hide KeptAll, Segments, Pending, Prepend;
    pairs := [];
    var start, inQuotes := 0, false;
    Whole(body);
    for i := 0 to |body|
      invariant 0 <= start <= i
      invariant pairs + KeptAll(Pending(body, start, i, inQuotes)) == Pairs(body)
    {
      if body[i] == '"' {
        OrdinaryExtends(body, start, i, inQuotes);
        inQuotes := !inQuotes;
      } else if body[i] == ';' && !inQuotes {
        var pair := TrimStart(body[start..i]);
        SemicolonCloses(body, start, i);
        if pair != "" {
          pairs := pairs + [pair];
        }
        start := i + 1;
      } else {
        OrdinaryExtends(body, start, i, inQuotes);
      }
    }
    AtEnd(body, start, inQuotes);
    var last := TrimStart(body[start..]);
    if last != "" {
      pairs := pairs + [last];
    }
  }

  /** What is still to be emitted when the loop stands at `i` with an open segment at `start`. */
  ghost function Pending(body: string, start: nat, i: nat, inQuotes: bool): seq<string>
    requires start <= i <= |body|
  {
    Prepend(body[start..i], Segments(body[i..], inQuotes))
  }

  lemma Whole(body: string)
    ensures Pending(body, 0, 0, false) == Segments(body, false)
  {
    assert body[0..] == body;
    assert body[0..0] + Segments(body, false)[0] == Segments(body, false)[0];
  }

  lemma SemicolonCloses(body: string, start: nat, i: nat)
    requires start <= i < |body| && body[i] == ';'
    ensures KeptAll(Pending(body, start, i, false))
         == Kept(body[start..i]) + KeptAll(Pending(body, i + 1, i + 1, false))
  {
    var rest := Segments(body[i + 1..], false);
    assert body[i..][1..] == body[i + 1..];
    assert body[start..i] + "" == body[start..i];
    assert Pending(body, start, i, false) == [body[start..i]] + rest;
    assert body[i + 1..i + 1] + rest[0] == rest[0];
    assert Pending(body, i + 1, i + 1, false) == rest;
  }

  lemma OrdinaryExtends(body: string, start: nat, i: nat, q: bool)
    requires start <= i < |body| && (q || body[i] != ';')
    ensures Pending(body, start, i, q) == Pending(body, start, i + 1, if body[i] == '"' then !q else q)
  {
    var rest := Segments(body[i + 1..], if body[i] == '"' then !q else q);
    assert body[i..][1..] == body[i + 1..];
    assert body[start..i] + ([body[i]] + rest[0]) == body[start..i + 1] + rest[0];
  }

  lemma AtEnd(body: string, start: nat, q: bool)
    requires start <= |body|
    ensures KeptAll(Pending(body, start, |body|, q)) == Kept(body[start..])
  {
    assert body[start..|body|] + "" == body[start..];
  }

  // ---------------------------------------------------------------------
  // Splitting is a homomorphism exactly on balanced quotes
  // ---------------------------------------------------------------------

  predicate Balanced(s: string) {
    !QuotesAfter(s, false)
  }

  lemma {:induction false} QuotesAfterAppend(a: string, c: string, q: bool)
    ensures QuotesAfter(a + c, q) == QuotesAfter(c, QuotesAfter(a, q))
  {
    if a == "" {
      assert a + c == c;
    } else {
      assert (a + c)[1..] == a[1..] + c;
      QuotesAfterAppend(a[1..], c, if a[0] == '"' then !q else q);
    }
  }

  /** Two segment lists run together: the last of `l` and the first of `r` become one. */
  function Join(l: seq<string>, r: seq<string>): seq<string>
    requires l != [] && r != []
  {
    l[..|l| - 1] + Prepend(l[|l| - 1], r)
  }

  lemma PrependJoin(text: string, l: seq<string>, r: seq<string>)
    requires l != [] && r != []
    ensures Prepend(text, Join(l, r)) == Join(Prepend(text, l), r)
  {
    var p := Prepend(text, l);
    if |l| == 1 {
      assert text + (l[0] + r[0]) == p[0] + r[0];
    } else {
      assert Join(l, r)[1..] == l[1..|l| - 1] + Prepend(l[|l| - 1], r);
      assert p[..|p| - 1] == [text + l[0]] + l[1..|l| - 1];
    }
  }

  lemma ConsJoin(text: string, l: seq<string>, r: seq<string>)
    requires l != [] && r != []
    ensures [text] + Join(l, r) == Join([text] + l, r)
  {
    var p := [text] + l;
    assert p[..|p| - 1] == [text] + l[..|l| - 1];
  }

  /** The last segment of `a` runs on into the first of `c`; everything else is kept apart. */
  lemma {:induction false} SegmentsAppend(a: string, c: string, q: bool)
    ensures Segments(a + c, q) == Join(Segments(a, q), Segments(c, QuotesAfter(a, q)))
  {
    if a == "" {
      assert a + c == c;
      var r := Segments(c, q);
      assert "" + r[0] == r[0];
    } else {
      var q' := if a[0] == '"' then !q else q;
      assert (a + c)[1..] == a[1..] + c && (a + c)[0] == a[0];
      SegmentsAppend(a[1..], c, q');
      var l, r := Segments(a[1..], q'), Segments(c, QuotesAfter(a, q));
      if a[0] == ';' && !q {
        ConsJoin("", l, r);
      } else {
        PrependJoin([a[0]], l, r);
      }
    }
  }

  lemma {:induction false} KeptAllAppend(a: seq<string>, b: seq<string>)
    ensures KeptAll(a + b) == KeptAll(a) + KeptAll(b)
  {
    if a == [] {
      assert a + b == b;
    } else {
      assert (a + b)[1..] == a[1..] + b;
      KeptAllAppend(a[1..], b);
    }
  }

  lemma {:induction false} TrimStartKeepsQuote(s: string)
    requires '"' in s
    ensures '"' in TrimStart(s)
  {
    if IsSpace(s[0]) {
      TrimStartKeepsQuote(s[1..]);
    }
  }

  lemma {:induction false} TrimStartAppend(s: string, x: string)
    requires TrimStart(s) != ""
    ensures TrimStart(s + x) == TrimStart(s) + x
  {
    if IsSpace(s[0]) {
      assert (s + x)[1..] == s[1..] + x;
      TrimStartAppend(s[1..], x);
    }
  }

  /** An open quote lies in the last segment, unless the scan started inside it. */
  lemma {:induction false} OpenQuoteIsLast(a: string, q: bool)
    requires QuotesAfter(a, q)
    ensures var l := Segments(a, q); '"' in l[|l| - 1] || (q && |l| == 1)
  {
    if a != "" {
      var q' := if a[0] == '"' then !q else q;
      OpenQuoteIsLast(a[1..], q');
      var l' := Segments(a[1..], q');
      if !(a[0] == ';' && !q) && |l'| == 1 {
        assert Segments(a, q)[0] == [a[0]] + l'[0];
      }
    }
  }

  /** The pairs before the last segment of `s`, and that segment. */
  lemma PairsOfJoined(s: string, c: string)
    ensures var l, r := Segments(s, false), Segments(c, QuotesAfter(s, false));
            Pairs(s + c) == KeptAll(l[..|l| - 1]) + KeptAll(Prepend(l[|l| - 1], r))
  {
    var l := Segments(s, false);
    SegmentsAppend(s, c, false);
    KeptAllAppend(l[..|l| - 1], Prepend(l[|l| - 1], Segments(c, QuotesAfter(s, false))));
  }

  lemma PairsOfLast(s: string)
    ensures var l := Segments(s, false); Pairs(s) == KeptAll(l[..|l| - 1]) + Kept(l[|l| - 1])
  {
    var l := Segments(s, false);
    assert l == l[..|l| - 1] + [l[|l| - 1]];
    KeptAllAppend(l[..|l| - 1], [l[|l| - 1]]);
  }

  lemma BalancedSplits(a: string, b: string)
    requires Balanced(a)
    ensures Pairs(a + (";" + b)) == Pairs(a) + Pairs(b)
  {
    PairsOfJoined(a, ";" + b);
    PairsOfLast(a);
    assert (";" + b)[1..] == b;
    assert Segments(";" + b, false) == [""] + Segments(b, false);
    var l := Segments(a, false);
    assert l[|l| - 1] + "" == l[|l| - 1];
    assert Prepend(l[|l| - 1], Segments(";" + b, false)) == [l[|l| - 1]] + Segments(b, false);
  }

  lemma OpenDoesNotSplit(a: string, b: string)
    requires !Balanced(a)
    ensures Pairs(a + (";" + b)) != Pairs(a) + Pairs(b)
  {
    PairsOfJoined(a, ";" + b);
    PairsOfLast(a);
    var l, r := Segments(a, false), Segments(";" + b, true);
    assert r[0][0] == ';';
    var front, last := KeptAll(l[..|l| - 1]), l[|l| - 1];
    hide Segments;
    OpenQuoteIsLast(a, false);
    TrimStartKeepsQuote(last);
    TrimStartAppend(last, r[0]);
    assert KeptAll(Prepend(last, r))[0] == TrimStart(last) + r[0];
    assert (front + KeptAll(Prepend(last, r)))[|front|] == TrimStart(last) + r[0];
    assert (front + Kept(last) + Pairs(b))[|front|] == TrimStart(last);
  }

  /**
   Splitting `a;b` is splitting `a`, then `b`, if and only if the quotes of `a` are closed.
   */
  lemma SplitHomomorphism(a: string, b: string)
    ensures Balanced(a) <==> Pairs(a + ";" + b) == Pairs(a) + Pairs(b)
  {
    assert a + ";" + b == a + (";" + b);
    if Balanced(a) {
      BalancedSplits(a, b);
    } else {
      OpenDoesNotSplit(a, b);
    }
  }

  lemma {:induction false} TrimStartStarts(s: string)
    ensures TrimStart(s) != "" ==> !IsSpace(TrimStart(s)[0])
    ensures TrimStart(s) == "" <==> Blank(s)
  {
    if s != "" && IsSpace(s[0]) {
      TrimStartStarts(s[1..]);
      assert s == [s[0]] + s[1..];
    }
  }

  lemma {:induction false} KeptAreTrimmed(segments: seq<string>)
    ensures forall p | p in KeptAll(segments) :: p != "" && !IsSpace(p[0])
  {
    if segments != [] {
      KeptAreTrimmed(segments[1..]);
      TrimStartStarts(segments[0]);
    }
  }

  /** No pair is empty or starts with white space. */
  lemma PairsAreTrimmed(s: string)
    ensures forall p | p in Pairs(s) :: p != "" && !IsSpace(p[0])
  {
    KeptAreTrimmed(Segments(s, false));
  }

  /** A part of a body that is blank has no pair, so semicolons with nothing but white space between change nothing. */
  lemma BlankPartsAreDropped(a: string, blank: string)
    requires Blank(blank)
    ensures Pairs(blank) == [] && Pairs(blank + ";" + a) == Pairs(a)
    ensures Balanced(a) ==> Pairs(a + ";" + blank) == Pairs(a)
  {
    OneSegment(blank, false);
    TrimStartStarts(blank);
    assert KeptAll([blank]) == Kept(blank) by { KeptOne(blank); }
    SplitHomomorphism(blank, a);
    SplitHomomorphism(a, blank);
    assert Pairs(a) + [] == Pairs(a) && [] + Pairs(a) == Pairs(a);
  }

  // ---------------------------------------------------------------------
  // Values
  // ---------------------------------------------------------------------

  /** `s` without its trailing run of escaped spaces. */
  function PeelEscapes(s: string): (r: string)
    ensures |r| <= |s| && (|s| - |r|) % 2 == 0
  {
    if EndsWithEscape(s) then PeelEscapes(s[..|s| - 2]) else s
  }

  function Spaces(n: nat): string {
    seq(n, _ => ' ')
  }

  /** The value of `s` once its trailing escapes are peeled. */
  function Peeled(s: string): string {
    DecodeEscapes(TrimEnd(PeelEscapes(s))) + Spaces((|s| - |PeelEscapes(s)|) / 2)
  }

  function UnescapedValue(raw: string): string {
    Peeled(TrimStart(raw))
  }

  /** The loop that counts the escaped spaces at the end of an unquoted value. */
  method UnescapeValue(raw: string) returns (value: string)
    ensures value == UnescapedValue(raw)
  {
    var s := TrimStart(raw);
    var tail, end := "", |s|;
    assert s[..|s|] == s;
    while EndsWithEscape(s[..end])
      invariant 0 <= end <= |s| && (|s| - end) % 2 == 0
      invariant PeelEscapes(s[..end]) == PeelEscapes(s)
      invariant tail == Spaces((|s| - end) / 2)
      decreases end
    {
      assert s[..end][..end - 2] == s[..end - 2];
      end := end - 2;
      tail := tail + " ";
    }
    value := DecodeEscapes(TrimEnd(s[..end])) + tail;
  }

  function PairOf(pair: string): Option<(string, string)> {
    match SplitOnce(pair, '=')
    case None => None
    case Some((key, val)) =>
      var trimmed := Trim(val);
      Some((Trim(key),
            if |trimmed| >= 2 && trimmed[0] == '"' && trimmed[|trimmed| - 1] == '"'
            then DecodeEscapes(trimmed[1..|trimmed| - 1])
            else UnescapedValue(val)))
  }

  method ParsePair(pair: string) returns (r: Option<(string, string)>)
    ensures r == PairOf(pair)
  {
    var split := SplitOnce(pair, '=');
    if split.None? {
      return None;
    }
    var (key, val) := split.value;
    var trimmed := Trim(val);
    if |trimmed| >= 2 && trimmed[0] == '"' && trimmed[|trimmed| - 1] == '"' {
      return Some((Trim(key), DecodeEscapes(trimmed[1..|trimmed| - 1])));
    }
    var value := UnescapeValue(val);
    return Some((Trim(key), value));
  }

  // ---------------------------------------------------------------------
  // Records
  // ---------------------------------------------------------------------

  datatype Oa1Record = Oa1Record(cryptocurrency: string, address: string, txDescription: Option<string>)

  datatype Fields = Fields(address: Option<string>, txDescription: Option<string>)

  function SetField(fields: Fields, key: string, value: string): Fields {
    if key == "recipient_address" then fields.(address := Some(value))
    else if key == "tx_description" then fields.(txDescription := Some(value))
    else fields
  }

  /** All pairs in order, a later one winning; one malformed pair spoils the record. */
  function FieldsOf(pairs: seq<string>): Option<Fields> {
    if pairs == [] then Some(Fields(None, None))
    else
      match (FieldsOf(pairs[..|pairs| - 1]), PairOf(pairs[|pairs| - 1]))
      case (Some(fields), Some((key, value))) => Some(SetField(fields, key, value))
      case _ => None
  }

  predicate IsCurrency(s: string) {
    s != "" && forall c | c in s :: 'a' <= c <= 'z'
  }

  const PREFIX := "oa1:"

  /** The currency and the pairs of a record, before the pairs are read. */
  function Header(input: string): Option<(string, string)> {
    var s := Trim(input);
    if !(PREFIX <= s) then None
    else
      match SplitOnce(s[|PREFIX|..], ' ')
      case None => None
      case Some((crypto, rest)) => if IsCurrency(Trim(crypto)) then Some((Trim(crypto), rest)) else None
  }

  function RecordOf(input: string): Option<Oa1Record> {
    match Header(input)
    case None => None
    case Some((crypto, rest)) =>
      match FieldsOf(Pairs(rest))
      case Some(Fields(Some(address), description)) => Some(Oa1Record(crypto, address, description))
      case _ => None
  }

  lemma {:induction false} FieldsNone(pairs: seq<string>, i: nat)
    requires i <= |pairs| && FieldsOf(pairs[..i]) == None
    ensures FieldsOf(pairs) == None
    decreases |pairs|
  {
    if i < |pairs| {
      assert pairs[..|pairs| - 1][..i] == pairs[..i];
      FieldsNone(pairs[..|pairs| - 1], i);
    } else {
      assert pairs[..i] == pairs;
    }
  }

  method ParseOa1(input: string) returns (r: Option<Oa1Record>)
    ensures r == RecordOf(input)
  {
    var header := Header(input);
    if header.None? {
      return None;
    }
    var (crypto, rest) := header.value;
    var address: Option<string>, txDescription: Option<string> := None, None;
    var pairs := SplitPairs(rest);
    for i := 0 to |pairs|
      invariant FieldsOf(pairs[..i]) == Some(Fields(address, txDescription))
    {
      assert pairs[..i + 1][..i] == pairs[..i];
      var pair := ParsePair(pairs[i]);
      if pair.None? {
        FieldsNone(pairs, i + 1);
        return None;
      }
      var (key, value) := pair.value;
      if key == "recipient_address" {
        address := Some(value);
      } else if key == "tx_description" {
        txDescription := Some(value);
      }
    }
    assert pairs[..|pairs|] == pairs;
    if address.None? {
      return None;
    }
    return Some(Oa1Record(crypto, address.value, txDescription));
  }

  // ---------------------------------------------------------------------
  // What is accepted
  // ---------------------------------------------------------------------

  /** `pair` sets `key`. */
  predicate Sets(pair: string, key: string) {
    PairOf(pair).Some? && PairOf(pair).value.0 == key
  }

  /** The value of the last pair that sets `key`; None when no pair does. */
  ghost predicate LastValue(pairs: seq<string>, key: string, value: Option<string>) {
    match value
    case None => forall i | 0 <= i < |pairs| :: !Sets(pairs[i], key)
    case Some(v) =>
      exists i: nat :: i < |pairs| && PairOf(pairs[i]) == Some((key, v))
                       && forall j | i < j < |pairs| :: !Sets(pairs[j], key)
  }

  lemma LastValueStep(pairs: seq<string>, pair: string, key: string, value: Option<string>)
    requires LastValue(pairs, key, value)
    ensures LastValue(pairs + [pair], key, if Sets(pair, key) then Some(PairOf(pair).value.1) else value)
  {
    hide PairOf;
    var all := pairs + [pair];
    if Sets(pair, key) {
      assert all[|pairs|] == pair;
    } else if value.Some? {
      var i: nat :| i < |pairs| && PairOf(pairs[i]) == Some((key, value.value))
                    && forall j | i < j < |pairs| :: !Sets(pairs[j], key);
      assert all[i] == pairs[i];
    }
  }

  lemma LastValueUnique(pairs: seq<string>, key: string, a: Option<string>, b: Option<string>)
    requires LastValue(pairs, key, a) && LastValue(pairs, key, b)
    ensures a == b
  {
    hide PairOf;
    if a.Some? {
      var i: nat :| i < |pairs| && PairOf(pairs[i]) == Some((key, a.value))
                    && forall j | i < j < |pairs| :: !Sets(pairs[j], key);
      assert Sets(pairs[i], key);
    }
    if b.Some? {
      var i: nat :| i < |pairs| && PairOf(pairs[i]) == Some((key, b.value))
                    && forall j | i < j < |pairs| :: !Sets(pairs[j], key);
      assert Sets(pairs[i], key);
    }
  }

  /** Pairs of other keys are ignored, the last of a key wins, and one pair without '=' spoils them all. */
  lemma {:induction false} FieldsMean(pairs: seq<string>)
    ensures FieldsOf(pairs).Some? <==> forall i | 0 <= i < |pairs| :: '=' in pairs[i]
    ensures FieldsOf(pairs).Some? ==>
              && LastValue(pairs, "recipient_address", FieldsOf(pairs).value.address)
              && LastValue(pairs, "tx_description", FieldsOf(pairs).value.txDescription)
  {
    if pairs != [] {
      var front, pair := pairs[..|pairs| - 1], pairs[|pairs| - 1];
      FieldsMean(front);
      SplitOnceMeans(pair, '=');
      assert pairs == front + [pair];
      assert PairOf(pair).Some? <==> '=' in pair;
      assert forall i | 0 <= i < |front| :: pairs[i] == front[i];
      if FieldsOf(pairs).Some? {
        LastValueStep(front, pair, "recipient_address", FieldsOf(front).value.address);
        LastValueStep(front, pair, "tx_description", FieldsOf(front).value.txDescription);
      }
    }
  }

  /** The trimmed input is the prefix, the currency up to the first space, and the body. */
  ghost predicate Headed(input: string, currency: string, body: string) {
    && currency != "" && (forall c | c in currency :: 'a' <= c <= 'z')
    && exists c: string ::
      ' ' !in c && Trim(c) == currency && Trim(input) == "oa1:" + c + " " + body
  }

  lemma HeaderIff(input: string, currency: string, body: string)
    ensures Header(input) == Some((currency, body)) <==> Headed(input, currency, body)
  {
    var s := Trim(input);
    hide Trim;
    if Header(input) == Some((currency, body)) {
      SplitOnceMeans(s[4..], ' ');
      var c := SplitOnce(s[4..], ' ').value.0;
      assert s == "oa1:" + s[4..] && "oa1:" + (c + [' '] + body) == "oa1:" + c + " " + body;
      assert ' ' !in c && Trim(c) == currency;
    }
    if Headed(input, currency, body) {
      var c: string :| ' ' !in c && Trim(c) == currency && s == "oa1:" + c + " " + body;
      assert s[..4] == "oa1:" && s[4..] == c + [' '] + body;
      SplitOnceAt(c, ' ', body);
    }
  }

  /**
   A text is read as a record if and only if it has a header with a lower-case currency, every pair of
   its body has a '=', and the last address and description among them are the record's.
   */
  lemma ReadAsIff(input: string, r: Oa1Record)
    ensures RecordOf(input) == Some(r) <==>
            exists body ::
              && Headed(input, r.cryptocurrency, body) && (forall i | 0 <= i < |Pairs(body)| :: '=' in Pairs(body)[i])
              && LastValue(Pairs(body), "recipient_address", Some(r.address))
              && LastValue(Pairs(body), "tx_description", r.txDescription)
  {
    hide Header, Headed, Pairs, FieldsOf, LastValue;
    if RecordOf(input) == Some(r) {
      var (crypto, body) := Header(input).value;
      HeaderIff(input, crypto, body);
      FieldsMean(Pairs(body));
      assert Headed(input, r.cryptocurrency, body);
    }
    if body :| Headed(input, r.cryptocurrency, body) && (forall i | 0 <= i < |Pairs(body)| :: '=' in Pairs(body)[i])
               && LastValue(Pairs(body), "recipient_address", Some(r.address))
               && LastValue(Pairs(body), "tx_description", r.txDescription) {
      HeaderIff(input, r.cryptocurrency, body);
      FieldsMean(Pairs(body));
      var fields := FieldsOf(Pairs(body)).value;
      LastValueUnique(Pairs(body), "recipient_address", fields.address, Some(r.address));
      LastValueUnique(Pairs(body), "tx_description", fields.txDescription, r.txDescription);
    }
  }

  // ---------------------------------------------------------------------
  // Two printers and their round trips
  // ---------------------------------------------------------------------

  function Escaped(v: string): string {
    if v == "" then "" else (if v[0] == ' ' then "\\ " else [v[0]]) + Escaped(v[1..])
  }

  function Quoted(v: string): string {
    "\"" + v + "\""
  }

  /** A record whose values are printed by `show`, each pair closed by a semicolon. */
  function Printed(r: Oa1Record, show: string -> string): string {
    PREFIX + r.cryptocurrency + " " + Body(r, show)
  }

  function Pair(key: string, shown: string): string {
    key + "=" + shown
  }

  /** What backslash-space printing carries: only plain spaces, no separator and no quote. */
  predicate Plain(v: string) {
    && (forall c | c in v :: IsSpace(c) ==> c == ' ')
    && ';' !in v && '"' !in v
  }

  predicate HasEscape(v: string) {
    exists i :: 0 <= i < |v| - 1 && v[i] == '\\' && v[i + 1] == ' '
  }

  lemma {:induction false} EscapedSnoc(v: string, c: char)
    ensures Escaped(v + [c]) == Escaped(v) + (if c == ' ' then "\\ " else [c])
  {
    if v == "" {
      assert v + [c] == [c];
      assert Escaped([c]) == (if c == ' ' then "\\ " else [c]) + Escaped("");
    } else {
      assert (v + [c])[1..] == v[1..] + [c];
      EscapedSnoc(v[1..], c);
    }
  }

  lemma {:induction false} EscapedChars(v: string)
    ensures forall c :: c in Escaped(v) ==> c in v || (c == '\\' && ' ' in v)
    ensures v != "" ==>
              Escaped(v) != "" && Escaped(v)[0] != ' ' && (IsSpace(Escaped(v)[0]) ==> IsSpace(v[0]) && v[0] != ' ')
  {
    if v != "" {
      EscapedChars(v[1..]);
    }
  }

  lemma {:induction false} DecodeEscaped(v: string)
    ensures DecodeEscapes(Escaped(v)) == v
  {
    if v != "" {
      DecodeEscaped(v[1..]);
      EscapedChars(v[1..]);
      var rest := Escaped(v[1..]);
      if v[0] == ' ' {
        assert ("\\ " + rest)[2..] == rest;
      } else {
        assert ([v[0]] + rest)[1..] == rest;
      }
    }
  }

  lemma PeeledStep(s: string)
    ensures Peeled(s + "\\ ") == Peeled(s) + " "
  {
    var e := s + "\\ ";
    assert e[|e| - 2..] == "\\ " && e[..|e| - 2] == s;
    var n := (|s| - |PeelEscapes(s)|) / 2;
    assert Spaces(n + 1) == Spaces(n) + " ";
  }

  /** The trailing escapes of a printed value stand for exactly its trailing spaces. */
  lemma {:induction false} PeelEscaped(v: string)
    requires forall c | c in v :: IsSpace(c) ==> c == ' '
    ensures Peeled(Escaped(v)) == v
  {
    if v != "" {
      var w, c := v[..|v| - 1], v[|v| - 1];
      assert v == w + [c];
      EscapedSnoc(w, c);
      if c == ' ' {
        PeelEscaped(w);
        PeeledStep(Escaped(w));
      } else {
        assert Escaped(v)[|Escaped(v)| - 1] == c && !IsSpace(c);
        DecodeEscaped(v);
      }
    }
  }

  lemma EscapedValueRoundTrip(v: string)
    requires Plain(v)
    ensures UnescapedValue(Escaped(v)) == v
  {
    EscapedChars(v);
    PeelEscaped(v);
    assert TrimStart(Escaped(v)) == Escaped(v);
  }

  lemma {:induction false} DecodeLength(v: string)
    ensures |DecodeEscapes(v)| <= |v|
    ensures DecodeEscapes(v) == v <==> !HasEscape(v)
    ensures HasEscape(v) ==> |DecodeEscapes(v)| < |v|
  {
    if v != "" {
      if |v| >= 2 && v[0] == '\\' && v[1] == ' ' {
        DecodeLength(v[2..]);
      } else {
        DecodeLength(v[1..]);
        assert HasEscape(v) <==> HasEscape(v[1..]) by {
          if HasEscape(v) {
            var i :| 0 <= i < |v| - 1 && v[i] == '\\' && v[i + 1] == ' ';
            assert v[1..][i - 1] == '\\' && v[1..][i - 1 + 1] == ' ';
          }
          if HasEscape(v[1..]) {
            var i :| 0 <= i < |v[1..]| - 1 && v[1..][i] == '\\' && v[1..][i + 1] == ' ';
            assert v[i + 1] == '\\' && v[i + 1 + 1] == ' ';
          }
        }
      }
    }
  }

  predicate NoEdgeSpace(s: string) {
    s == "" || (!IsSpace(s[0]) && !IsSpace(s[|s| - 1]))
  }

  /** A key the parser leaves as it is. */
  predicate KeyName(key: string) {
    key != "" && NoEdgeSpace(key) && '=' !in key && ';' !in key && '"' !in key
  }

  lemma EscapedPair(key: string, v: string)
    requires KeyName(key) && Plain(v)
    ensures PairOf(Pair(key, Escaped(v))) == Some((key, v))
  {
    SplitOnceAt(key, '=', Escaped(v));
    EscapedValueRoundTrip(v);
    EscapedChars(v);
    TrimSubset(Escaped(v));
  }

  lemma {:induction false} TrimSubset(s: string)
    ensures forall c :: c in Trim(s) ==> c in s
  {
    TrimStartSubset(s);
    TrimEndSubset(TrimStart(s));
  }

  lemma {:induction false} TrimStartSubset(s: string)
    ensures forall c :: c in TrimStart(s) ==> c in s
  {
    if s != "" && IsSpace(s[0]) {
      TrimStartSubset(s[1..]);
    }
  }

  lemma {:induction false} TrimEndSubset(s: string)
    ensures forall c :: c in TrimEnd(s) ==> c in s
  {
    if s != "" && IsSpace(s[|s| - 1]) {
      TrimEndSubset(s[..|s| - 1]);
    }
  }

  /** A quoted value is read back if and only if it holds no backslash-space. */
  lemma QuotedPair(key: string, v: string)
    requires KeyName(key) && '"' !in v
    ensures PairOf(Pair(key, Quoted(v))) == Some((key, v)) <==> !HasEscape(v)
  {
    SplitOnceAt(key, '=', Quoted(v));
    var q := Quoted(v);
    assert Trim(q) == q && q[1..|q| - 1] == v;
    DecodeLength(v);
  }

  /** A quoted value is its text with the escapes decoded, so quoting an escaped value is read back as well. */
  lemma QuotedDecodes(key: string, v: string)
    requires KeyName(key) && '"' !in v
    ensures PairOf(Pair(key, Quoted(v))) == Some((key, DecodeEscapes(v)))
    ensures PairOf(Pair(key, Quoted(Escaped(v)))) == Some((key, v))
  {
    forall w | '"' !in w
      ensures PairOf(Pair(key, Quoted(w))) == Some((key, DecodeEscapes(w)))
    {
      SplitOnceAt(key, '=', Quoted(w));
      var q := Quoted(w);
      assert Trim(q) == q && q[1..|q| - 1] == w;
    }
    EscapedChars(v);
    DecodeEscaped(v);
  }

  predicate Blank(s: string) {
    forall c | c in s :: IsSpace(c)
  }

  lemma {:induction false} TrimStartBlank(a: string, s: string)
    requires Blank(a)
    ensures TrimStart(a + s) == TrimStart(s)
  {
    if a == "" {
      assert a + s == s;
    } else {
      assert (a + s)[1..] == a[1..] + s;
      TrimStartBlank(a[1..], s);
    }
  }

  lemma {:induction false} TrimEndBlank(s: string, b: string)
    requires Blank(b)
    ensures TrimEnd(s + b) == TrimEnd(s)
  {
    if b == "" {
      assert s + b == s;
    } else {
      assert (s + b)[..|s + b| - 1] == s + b[..|b| - 1];
      TrimEndBlank(s, b[..|b| - 1]);
    }
  }

  lemma TrimBlank(a: string, s: string, b: string)
    requires Blank(a) && Blank(b) && s != "" && NoEdgeSpace(s)
    ensures Trim(a + s + b) == s
  {
    assert a + s + b == a + (s + b);
    TrimStartBlank(a, s + b);
    assert TrimStart(s + b) == s + b;
    TrimEndBlank(s, b);
  }

  /** White space around a key and around a quoted value means nothing. */
  lemma SpacesAreIgnored(a: string, key: string, b: string, c: string, v: string, d: string)
    requires Blank(a) && Blank(b) && Blank(c) && Blank(d) && KeyName(key) && '"' !in v
    ensures PairOf(a + key + b + "=" + (c + Quoted(v) + d)) == PairOf(Pair(key, Quoted(v)))
  {
    QuotedDecodes(key, v);
    var k, val := a + key + b, c + Quoted(v) + d;
    assert a + key + b + "=" + val == k + ['='] + val;
    SplitOnceAt(k, '=', val);
    TrimBlank(a, key, b);
    TrimBlank(c, Quoted(v), d);
    assert Quoted(v)[1..|Quoted(v)| - 1] == v;
  }

  /**
   Around an escaped value it means nothing, with two exceptions: behind an escaped space, whose
   escape is then lost, and a single space behind a backslash, which makes an escape.
   */
  lemma SpacesAroundEscapedIff(c: string, v: string, d: string)
    requires Blank(c) && Blank(d) && d != "" && Plain(v)
    ensures UnescapedValue(c + Escaped(v) + d) == v <==>
            v == "" || (v[|v| - 1] != ' ' && !(v[|v| - 1] == '\\' && d == " "))
  {
    assert c + Escaped(v) + d == c + (Escaped(v) + d);
    TrimStartBlank(c, Escaped(v) + d);
    EscapedChars(v);
    if v == "" {
      TrimStartBlank(d, "");
      assert Escaped(v) + d == d + "" && Spaces(0) == "";
    } else {
      assert TrimStart(Escaped(v) + d) == Escaped(v) + d;
      hide *;
      UnescapedIs(c + Escaped(v) + d);
      LastIsBlank(v);
      SpacesBehindIff(v, d);
    }
  }

  lemma UnescapedIs(raw: string)
    ensures UnescapedValue(raw) == Peeled(TrimStart(raw))
  {
  }

  lemma NoEscapeAtEnd(e: string, d: string)
    requires Blank(d) && e != "" && d != "" && !(e[|e| - 1] == '\\' && d == " ")
    ensures !EndsWithEscape(e + d)
  {
    var t := e + d;
    if |d| == 1 {
      assert t[|t| - 2..] == [e[|e| - 1], d[0]] && d == [d[0]];
    } else {
      assert d[|d| - 2] in d && t[|t| - 2..][0] == d[|d| - 2];
    }
  }

  lemma LastIsBlank(v: string)
    requires Plain(v) && v != ""
    ensures IsSpace(v[|v| - 1]) <==> v[|v| - 1] == ' '
  {
  }

  lemma SpacesBehindIff(v: string, d: string)
    requires Blank(d) && d != "" && v != "" && (IsSpace(v[|v| - 1]) <==> v[|v| - 1] == ' ')
    ensures Peeled(Escaped(v) + d) == v <==> v[|v| - 1] != ' ' && !(v[|v| - 1] == '\\' && d == " ")
  {
    var w, last := v[..|v| - 1], v[|v| - 1];
    assert v == w + [last];
    EscapedSnoc(w, last);
    hide *;
    if last == ' ' {
      LostEscape(w, Escaped(v), v, d);
    } else if last == '\\' && d == " " {
      MadeEscape(w, Escaped(v), v, d);
    } else {
      TrailingBlank(w, last, Escaped(v), v, d);
    }
  }

  lemma TrailingBlank(w: string, last: char, e: string, v: string, d: string)
    requires Blank(d) && d != "" && !IsSpace(last) && !(last == '\\' && d == " ")
    requires v == w + [last] && e == Escaped(w) + [last]
    ensures Peeled(e + d) == v
  {
    NoEscapeAtEnd(e, d);
    assert Spaces(0) == "";
    TrimEndBlank(e, d);
    assert TrimEnd(e) == e;
    EscapedSnoc(w, last);
    DecodeEscaped(v);
  }

  lemma LostEscape(w: string, e: string, v: string, d: string)
    requires Blank(d) && d != "" && v == w + [' '] && e == Escaped(w) + "\\ "
    ensures Peeled(e + d) != v
  {
    var b := Escaped(w) + ['\\'];
    NoEscapeAtEnd(e, d);
    assert Spaces(0) == "";
    TrimEndBlank(e, d);
    assert e[..|e| - 1] == b && b[|b| - 1] == '\\';
    assert TrimEnd(b) == b && TrimEnd(e) == b;
    EndsInBackslash(Escaped(w));
    var r := DecodeEscapes(b);
    assert Peeled(e + d) == r + Spaces(0) == r && v[|v| - 1] == ' ';
  }

  lemma MadeEscape(w: string, e: string, v: string, d: string)
    requires v == w + ['\\'] && e == Escaped(w) + ['\\'] && d == " "
    ensures Peeled(e + d) != v
  {
    assert e + d == Escaped(w) + "\\ ";
    PeeledStep(Escaped(w));
    var r := Peeled(e + d);
    assert r[|r| - 1] == ' ' && v[|v| - 1] == '\\';
  }

  lemma {:induction false} EndsInBackslash(s: string)
    ensures DecodeEscapes(s + ['\\']) != "" && var r := DecodeEscapes(s + ['\\']); r[|r| - 1] == '\\'
  {
    var t := s + ['\\'];
    if s != "" {
      if |s| >= 2 && s[0] == '\\' && s[1] == ' ' {
        assert t[2..] == s[2..] + ['\\'];
        EndsInBackslash(s[2..]);
      } else {
        assert t[1..] == s[1..] + ['\\'];
        assert !(t[0] == '\\' && t[1] == ' ');
        EndsInBackslash(s[1..]);
      }
    }
  }

  lemma {:induction false} OneSegment(s: string, q: bool)
    requires '"' !in s && (q || ';' !in s)
    ensures Segments(s, q) == [s] && QuotesAfter(s, q) == q
  {
    if s != "" {
      OneSegment(s[1..], q);
      assert [s[0]] + s[1..] == s;
    }
  }

  /** A printed pair is one segment with its quotes closed. */
  predicate Closed(pair: string) {
    pair != "" && Segments(pair, false) == [pair] && Balanced(pair)
  }

  lemma EscapedClosed(key: string, v: string)
    requires KeyName(key) && Plain(v)
    ensures Closed(Pair(key, Escaped(v)))
  {
    EscapedChars(v);
    OneSegment(Pair(key, Escaped(v)), false);
  }

  lemma QuotedClosed(key: string, v: string)
    requires KeyName(key) && '"' !in v
    ensures Closed(Pair(key, Quoted(v)))
  {
    var front := key + "=";
    OneSegment(front, false);
    OneSegment(v, true);
    var q := "\"";
    assert Segments(q, true) == [q] && Segments(q, false) == [q] by {
      assert q[1..] == "" && [q[0]] + "" == q;
    }
    SegmentsAppend(v, q, true);
    QuotesAfterAppend(v, q, true);
    assert Segments(v + q, true) == [v + q];
    assert (q + (v + q))[1..] == v + q;
    assert Segments(q + (v + q), false) == [q + (v + q)];
    SegmentsAppend(front, q + (v + q), false);
    QuotesAfterAppend(front, q + (v + q), false);
    assert Pair(key, Quoted(v)) == front + (q + (v + q));
  }

  lemma KeptOne(segment: string)
    ensures KeptAll([segment]) == Kept(segment)
  {
    assert [segment][1..] == [];
  }

  /** A body of closed pairs, each ended by a semicolon, splits into them. */
  lemma ClosedPairs(pair: string, body: string)
    requires Closed(pair) && !IsSpace(pair[0])
    ensures Pairs(pair + ";" + body) == [pair] + Pairs(body)
    ensures Pairs(" " + pair + ";" + body) == [pair] + Pairs(body)
  {
    SplitHomomorphism(pair, body);
    KeptOne(pair);
    var spaced := " " + pair;
    assert spaced[1..] == pair && [' '] + pair == spaced;
    assert Segments(spaced, false) == [spaced];
    KeptOne(spaced);
    SplitHomomorphism(spaced, body);
  }

  /** The body a record is printed with, after the currency. */
  function Body(r: Oa1Record, show: string -> string): string {
    Pair("recipient_address", show(r.address)) + ";"
    + (match r.txDescription
       case None => ""
       case Some(d) => " " + Pair("tx_description", show(d)) + ";")
  }

  lemma HeaderOfPrinted(r: Oa1Record, show: string -> string)
    requires IsCurrency(r.cryptocurrency)
    ensures Header(Printed(r, show)) == Some((r.cryptocurrency, Body(r, show)))
  {
    var crypto, body, s := r.cryptocurrency, Body(r, show), Printed(r, show);
    assert body[|body| - 1] == ';';
    assert s == PREFIX + (crypto + " " + body);
    assert s[0] == 'o' && s[|s| - 1] == ';';
    assert Trim(s) == s;
    assert s[|PREFIX|..] == crypto + [' '] + body;
    SplitOnceAt(crypto, ' ', body);
    assert crypto[0] in crypto && crypto[|crypto| - 1] in crypto;
    assert Trim(crypto) == crypto;
  }

  /** A printer is faithful to a value when the pair it makes is closed and reads back. */
  ghost predicate Faithful(show: string -> string, key: string, v: string) {
    Closed(Pair(key, show(v))) && PairOf(Pair(key, show(v))) == Some((key, v))
  }

  lemma FieldsOfOne(pair: string, key: string, v: string)
    requires PairOf(pair) == Some((key, v))
    ensures FieldsOf([pair]) == Some(SetField(Fields(None, None), key, v))
  {
    assert [pair][..0] == [];
  }

  lemma FieldsOfTwo(first: string, second: string, key: string, v: string)
    requires FieldsOf([first]).Some? && PairOf(second) == Some((key, v))
    ensures FieldsOf([first, second]) == Some(SetField(FieldsOf([first]).value, key, v))
  {
    assert [first, second][..1] == [first];
  }

  /** Whatever the printer, a record is read back when each of its pairs is. */
  lemma PrintedRoundTrip(r: Oa1Record, show: string -> string)
    requires IsCurrency(r.cryptocurrency)
    requires Faithful(show, "recipient_address", r.address)
    requires r.txDescription.Some? ==> Faithful(show, "tx_description", r.txDescription.value)
    ensures RecordOf(Printed(r, show)) == Some(r)
  {
    hide Header, Segments, KeptAll, FieldsOf, PairOf;
    HeaderOfPrinted(r, show);
    var first := Pair("recipient_address", show(r.address));
    assert first[0] == 'r';
    FieldsOfOne(first, "recipient_address", r.address);
    NoPairs();
    match r.txDescription
    case None =>
      ClosedPairs(first, "");
      assert Body(r, show) == first + ";" + "";
      assert Pairs(Body(r, show)) == [first];
    case Some(d) =>
      var second := Pair("tx_description", show(d));
      assert second[0] == 't';
      ClosedPairs(second, "");
      ClosedPairs(first, " " + second + ";");
      assert " " + second + ";" + "" == " " + second + ";";
      assert Body(r, show) == first + ";" + (" " + second + ";");
      assert Pairs(Body(r, show)) == [first, second];
      FieldsOfTwo(first, second, "tx_description", d);
  }

  lemma NoPairs()
    ensures Pairs("") == []
  {
  }

  lemma EscapedPairFaithful(key: string, v: string)
    requires KeyName(key) && Plain(v)
    ensures Faithful(Escaped, key, v)
  {
    EscapedClosed(key, v);
    EscapedPair(key, v);
  }

  lemma QuotedPairFaithful(key: string, v: string)
    requires KeyName(key) && '"' !in v && !HasEscape(v)
    ensures Faithful(Quoted, key, v)
  {
    QuotedClosed(key, v);
    QuotedPair(key, v);
  }

  /** Printing with escapes and parsing gives the record back, spaces at the ends included. */
  lemma EscapedRecordRoundTrip(r: Oa1Record)
    requires IsCurrency(r.cryptocurrency) && Plain(r.address)
    requires r.txDescription.Some? ==> Plain(r.txDescription.value)
    ensures RecordOf(Printed(r, Escaped)) == Some(r)
  {
    EscapedPairFaithful("recipient_address", r.address);
    if r.txDescription.Some? {
      EscapedPairFaithful("tx_description", r.txDescription.value);
    }
    PrintedRoundTrip(r, Escaped);
  }

  /** Printing with quotes carries semicolons and any whitespace. */
  lemma QuotedRecordRoundTrip(r: Oa1Record)
    requires IsCurrency(r.cryptocurrency)
    requires forall v | v == r.address || r.txDescription == Some(v) :: '"' !in v && !HasEscape(v)
    ensures RecordOf(Printed(r, Quoted)) == Some(r)
  {
    QuotedPairFaithful("recipient_address", r.address);
    if r.txDescription.Some? {
      QuotedPairFaithful("tx_description", r.txDescription.value);
    }
    PrintedRoundTrip(r, Quoted);
  }
}
