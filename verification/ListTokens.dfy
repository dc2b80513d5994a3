/** The list-directed tokenizer and the records it reads. */
module ListTokens {
  import opened Options

  // ----- characters

  /** White space, as the scripting language's string test has it. */
  predicate IsSpace(c: char) {
    var n := c as int;
    n == 32 || 9 <= n <= 13 || 28 <= n <= 31 || n == 0x85 || n == 0xA0 || n == 0x1680 || 0x2000 <= n <= 0x200A
    || n == 0x2028 || n == 0x2029 || n == 0x202F || n == 0x205F || n == 0x3000
  }

  predicate EndsRecord(c: char) {
    c == '/' || c == '!'
  }

  predicate IsDelimiter(c: char) {
    IsSpace(c) || c == ',' || EndsRecord(c)
  }

  predicate IsQuote(c: char) {
    c == '"' || c == '\''
  }

  // ----- the scanner

  /** A quoted value and what follows its closing quote; two quotes in a row stand for one. */
  function Unquote(s: string, quote: char): Option<(string, string)> {
    if s == "" then None
    else if s[0] == quote then
      if |s| > 1 && s[1] == quote then Before(quote, Unquote(s[2..], quote)) else Some(("", s[1..]))
    else Before(s[0], Unquote(s[1..], quote))
  }

  function Before(c: char, read: Option<(string, string)>): Option<(string, string)> {
    if read.Some? then Some(([c] + read.value.0, read.value.1)) else None
  }

  /** The length of a bare value. */
  function BareLength(s: string): (n: nat)
    ensures n <= |s| && (forall i :: 0 <= i < n ==> !IsDelimiter(s[i])) && (n < |s| ==> IsDelimiter(s[n]))
  {
    if s == "" || IsDelimiter(s[0]) then 0 else 1 + BareLength(s[1..])
  }

  function Consed(value: string, rest: Option<seq<string>>): Option<seq<string>> {
    if rest.Some? then Some([value] + rest.value) else None
  }

  lemma UnquoteShorter(s: string, quote: char)
    ensures Unquote(s, quote).Some? ==> |Unquote(s, quote).value.1| < |s|
  {
  }

  /** The values of the rest of a record, given whether a value has been read, and a comma since. */
  function Scan(s: string, some: bool, afterComma: bool): Option<seq<string>>
    decreases |s|
  {
    if s == "" then Some([])
    else if IsSpace(s[0]) then Scan(s[1..], some, afterComma)
    else if EndsRecord(s[0]) then Some([])
    else if s[0] == ',' then if !some || afterComma then None else Scan(s[1..], some, true)
    else if IsQuote(s[0]) then
      var read := Unquote(s[1..], s[0]);
      if read.None? then None
      else
        UnquoteShorter(s[1..], s[0]);
        var value, rest := read.value.0, read.value.1;
        if rest != "" && !IsDelimiter(rest[0]) then None else Consed(value, Scan(rest, true, false))
    else
      var n := BareLength(s);
      if '*' in s[..n] then None else Consed(s[..n], Scan(s[n..], true, false))
  }

  // ----- the loops

  /** The quoted-value loop. */
  method ReadQuoted(record: string, start: nat, quote: char) returns (closed: bool, value: string, i: nat)
    requires start <= |record|
    ensures start <= i <= |record|
    ensures closed <==> Unquote(record[start..], quote).Some?
    ensures closed ==> Unquote(record[start..], quote) == Some((value, record[i..])) && i > start
  {
    closed, value, i := false, "", start;
    PrefixedNothing(Unquote(record[start..], quote));
    while i < |record| && !closed
      invariant start <= i <= |record|
      invariant !closed ==> Unquote(record[start..], quote) == Prefixed(value, Unquote(record[i..], quote))
      invariant closed ==> Unquote(record[start..], quote) == Some((value, record[i..])) && i > start
      decreases |record| - i, if closed then 0 else 1
    {
      var c := record[i];
      ghost var here := record[i..];
      assert here[0] == c && here[1..] == record[i + 1..];
      i := i + 1;
      if c == quote {
        if i < |record| && record[i] == quote {
          assert here[1] == quote && here[2..] == record[i + 1..];
          PrefixedMore(value, quote, Unquote(record[i + 1..], quote));
          value := value + [quote];
          i := i + 1;
        } else {
          assert Unquote(here, quote) == Some(("", record[i..]));
          assert value + "" == value;
          closed := true;
        }
      } else {
        PrefixedMore(value, c, Unquote(record[i..], quote));
        value := value + [c];
      }
    }
  }

  function Prefixed(front: string, read: Option<(string, string)>): Option<(string, string)> {
    if read.Some? then Some((front + read.value.0, read.value.1)) else None
  }

  lemma PrefixedNothing(read: Option<(string, string)>)
    ensures Prefixed("", read) == read
  {
    if read.Some? {
      assert "" + read.value.0 == read.value.0;
    }
  }

  lemma PrefixedMore(front: string, c: char, read: Option<(string, string)>)
    ensures Prefixed(front, Before(c, read)) == Prefixed(front + [c], read)
  {
    if read.Some? {
      assert front + ([c] + read.value.0) == (front + [c]) + read.value.0;
    }
  }

  method ReadBare(record: string, start: nat) returns (i: nat)
    requires start < |record| && !IsDelimiter(record[start])
    ensures start < i <= |record| && i == start + BareLength(record[start..])
  {
    i := start;
    while i < |record| && !IsDelimiter(record[i])
      invariant start <= i <= |record|
      invariant forall j :: start <= j < i ==> !IsDelimiter(record[j])
    {
      i := i + 1;
    }
    assert record[start..] == record[start..i] + record[i..];
    BareLengthOf(record[start..i], record[i..]);
  }

  function Joined(front: seq<string>, rest: Option<seq<string>>): Option<seq<string>> {
    if rest.Some? then Some(front + rest.value) else None
  }

  lemma JoinedMore(front: seq<string>, value: string, rest: Option<seq<string>>)
    ensures Joined(front, Consed(value, rest)) == Joined(front + [value], rest)
  {
    if rest.Some? {
      assert front + ([value] + rest.value) == (front + [value]) + rest.value;
    }
  }

  /** One value at a position where one starts. */
  method ReadValue(record: string, start: nat) returns (ok: bool, value: string, i: nat)
    requires start < |record| && !IsDelimiter(record[start])
    ensures ok ==> start < i <= |record|
    ensures forall some, afterComma :: Scan(record[start..], some, afterComma)
                                       == if ok then Consed(value, Scan(record[i..], true, false)) else None
  {
    ghost var s := record[start..];
    assert s[0] == record[start] && s[1..] == record[start + 1..];
    if IsQuote(record[start]) {
      ok, value, i := ReadQuoted(record, start + 1, record[start]);
      if ok && i < |record| && !IsDelimiter(record[i]) {
        assert record[i..][0] == record[i];
        ok := false;
      }
    } else {
      i := ReadBare(record, start);
      value := record[start..i];
      assert s[..i - start] == value && s[i - start..] == record[i..];
      ok := '*' !in value;
    }
  }

  /** The tokenizer as the source loops; it always ends. */
  method Tokens(record: string) returns (r: Option<seq<string>>)
    ensures r == Scan(record, false, false)
  {
    var result: seq<string>, i, afterComma := [], 0, false;
    assert record[0..] == record;
    JoinedNothing(Scan(record, false, false));
    while i < |record|
      invariant 0 <= i <= |record|
      invariant Scan(record, false, false) == Joined(result, Scan(record[i..], result != [], afterComma))
    {
      assert record[i..][0] == record[i] && record[i..][1..] == record[i + 1..];
      if IsSpace(record[i]) {
        i := i + 1;
      } else if EndsRecord(record[i]) {
        break;
      } else if record[i] == ',' {
        if result == [] || afterComma {
          return None;
        }
        afterComma, i := true, i + 1;
      } else {
        var ok, value, next := ReadValue(record, i);
        if !ok {
          return None;
        }
        JoinedMore(result, value, Scan(record[next..], true, false));
        result, afterComma, i := result + [value], false, next;
      }
    }
    assert result + [] == result;
    r := Some(result);
  }

  lemma JoinedNothing(rest: Option<seq<string>>)
    ensures Joined([], rest) == rest
  {
    if rest.Some? {
      assert [] + rest.value == rest.value;
    }
  }

  // ----- printing

  /** How a value is written: bare, or between quotes. */
  datatype Form = Bare | Quoted(quote: char)

  /** What follows a value: blanks, or one comma among blanks. */
  datatype Separator = Blanks(blanks: string) | Comma(before: string, after: string)

  datatype Item = Item(text: string, form: Form, separator: Separator)

  predicate AllSpace(s: string) {
    forall i :: 0 <= i < |s| ==> IsSpace(s[i])
  }

  /** A value that needs no quotes. */
  predicate BareLegal(text: string) {
    && text != "" && !IsQuote(text[0]) && '*' !in text && forall i :: 0 <= i < |text| ==> !IsDelimiter(text[i])
  }

  predicate SeparatorLegal(s: Separator) {
    match s
    case Blanks(blanks) => AllSpace(blanks)
    case Comma(before, after) => AllSpace(before) && AllSpace(after)
  }

  predicate ItemLegal(item: Item) {
    && SeparatorLegal(item.separator)
    && (match item.form
        case Bare => BareLegal(item.text)
        case Quoted(quote) => IsQuote(quote))
  }

  /** Values separated by blanks or single commas; after the last one nothing is needed. */
  ghost predicate Legal(items: seq<Item>) {
    && (forall i :: 0 <= i < |items| ==> ItemLegal(items[i]))
    && (forall i :: 0 <= i < |items| - 1 ==> SeparatorText(items[i].separator) != "")
  }

  predicate CommentLegal(comment: string) {
    comment == "" || EndsRecord(comment[0])
  }

  function Doubled(text: string, quote: char): string {
    if text == "" then ""
    else if text[0] == quote then [quote, quote] + Doubled(text[1..], quote)
    else [text[0]] + Doubled(text[1..], quote)
  }

  function Shown(item: Item): string {
    match item.form
    case Bare => item.text
    case Quoted(quote) => [quote] + (Doubled(item.text, quote) + [quote])
  }

  function SeparatorText(s: Separator): string {
    match s
    case Blanks(blanks) => blanks
    case Comma(before, after) => before + ([','] + after)
  }

  function PrintItems(items: seq<Item>, comment: string): string {
    if items == [] then comment
    else Shown(items[0]) + (SeparatorText(items[0].separator) + PrintItems(items[1..], comment))
  }

  function Print(lead: string, items: seq<Item>, comment: string): string {
    lead + PrintItems(items, comment)
  }

  function Texts(items: seq<Item>): (r: seq<string>)
    ensures |r| == |items| && forall i :: 0 <= i < |r| ==> r[i] == items[i].text
  {
    seq(|items|, i requires 0 <= i < |items| => items[i].text)
  }

  // ----- printed records are read back

  lemma {:induction false} SkipSpace(blanks: string, rest: string, some: bool, afterComma: bool)
    requires AllSpace(blanks)
    ensures Scan(blanks + rest, some, afterComma) == Scan(rest, some, afterComma)
    decreases |blanks|
  {
    if blanks == "" {
      assert blanks + rest == rest;
    } else {
      assert (blanks + rest)[1..] == blanks[1..] + rest;
      SkipSpace(blanks[1..], rest, some, afterComma);
    }
  }

  /** Where no comma comes next, the flags do not matter. */
  predicate NoCommaNext(s: string) {
    s == "" || (!IsSpace(s[0]) && s[0] != ',')
  }

  lemma FlagsIrrelevant(s: string, some: bool, afterComma: bool)
    requires NoCommaNext(s)
    ensures Scan(s, some, afterComma) == Scan(s, true, false)
  {
  }

  lemma SkipSeparator(separator: Separator, rest: string)
    requires SeparatorLegal(separator) && NoCommaNext(rest)
    ensures Scan(SeparatorText(separator) + rest, true, false) == Scan(rest, true, false)
  {
    match separator
    case Blanks(blanks) => SkipSpace(blanks, rest, true, false);
    case Comma(before, after) =>
      assert before + ([','] + after) + rest == before + ([','] + (after + rest));
      SkipSpace(before, [','] + (after + rest), true, false);
      assert ([','] + (after + rest))[1..] == after + rest;
      SkipSpace(after, rest, true, true);
      FlagsIrrelevant(rest, true, true);
  }

  lemma {:induction false} UnquoteDoubled(text: string, quote: char, rest: string)
    requires rest == "" || rest[0] != quote
    ensures Unquote(Doubled(text, quote) + [quote] + rest, quote) == Some((text, rest))
    decreases |text|
  {
    var s := Doubled(text, quote) + [quote] + rest;
    if text == "" {
      assert s[0] == quote && s[1..] == rest;
    } else {
      var tail := Doubled(text[1..], quote) + [quote] + rest;
      UnquoteDoubled(text[1..], quote, rest);
      if text[0] == quote {
        assert s == [quote, quote] + tail;
        assert s[2..] == tail;
      } else {
        assert s == [text[0]] + tail;
        assert s[1..] == tail;
      }
      assert [text[0]] + text[1..] == text;
    }
  }

  lemma BareRead(text: string, rest: string, some: bool, afterComma: bool)
    requires BareLegal(text) && (rest == "" || IsDelimiter(rest[0]))
    ensures Scan(text + rest, some, afterComma) == Consed(text, Scan(rest, true, false))
  {
    BareLengthOf(text, rest);
    var s := text + rest;
    assert s[0] == text[0] && s[..|text|] == text && s[|text|..] == rest;
  }

  lemma {:induction false} BareLengthOf(text: string, rest: string)
    requires (forall i :: 0 <= i < |text| ==> !IsDelimiter(text[i])) && (rest == "" || IsDelimiter(rest[0]))
    ensures BareLength(text + rest) == |text|
    decreases |text|
  {
    if text == "" {
      assert text + rest == rest;
    } else {
      assert (text + rest)[1..] == text[1..] + rest;
      BareLengthOf(text[1..], rest);
    }
  }

  lemma QuotedRead(text: string, quote: char, rest: string, some: bool, afterComma: bool)
    requires IsQuote(quote) && (rest == "" || IsDelimiter(rest[0]))
    ensures Scan([quote] + (Doubled(text, quote) + [quote]) + rest, some, afterComma)
            == Consed(text, Scan(rest, true, false))
  {
    var s := [quote] + (Doubled(text, quote) + [quote]) + rest;
    assert s[1..] == Doubled(text, quote) + [quote] + rest;
    UnquoteDoubled(text, quote, rest);
  }

  lemma ItemRead(item: Item, rest: string, some: bool, afterComma: bool)
    requires ItemLegal(item) && (rest == "" || IsDelimiter(rest[0]))
    ensures Scan(Shown(item) + rest, some, afterComma) == Consed(item.text, Scan(rest, true, false))
  {
    match item.form
    case Bare => BareRead(item.text, rest, some, afterComma);
    case Quoted(quote) => QuotedRead(item.text, quote, rest, some, afterComma);
  }

  lemma ShownStarts(item: Item)
    requires ItemLegal(item)
    ensures Shown(item) != "" && !IsDelimiter(Shown(item)[0])
  {
  }

  lemma RestStarts(items: seq<Item>, comment: string)
    requires Legal(items) && CommentLegal(comment)
    ensures NoCommaNext(PrintItems(items, comment))
  {
    if items != [] {
      assert ItemLegal(items[0]);
      ShownStarts(items[0]);
    }
  }

  lemma SeparatorStarts(separator: Separator, rest: string)
    requires SeparatorLegal(separator) && SeparatorText(separator) != ""
    ensures IsDelimiter((SeparatorText(separator) + rest)[0])
  {
  }

  lemma LegalRest(items: seq<Item>)
    requires Legal(items) && items != []
    ensures ItemLegal(items[0]) && Legal(items[1..])
    ensures items[1..] != [] ==> SeparatorText(items[0].separator) != ""
  {
    var others := items[1..];
    forall i | 0 <= i < |others|
      ensures ItemLegal(others[i])
    {
      assert others[i] == items[i + 1];
    }
    forall i | 0 <= i < |others| - 1
      ensures SeparatorText(others[i].separator) != ""
    {
      assert others[i] == items[i + 1];
    }
  }

  /** One printed value, its separator, and a rest that starts no comma. */
  lemma ItemStep(item: Item, tail: string, some: bool, afterComma: bool)
    requires ItemLegal(item) && NoCommaNext(tail)
    requires SeparatorText(item.separator) != "" || tail == "" || IsDelimiter(tail[0])
    ensures Scan(Shown(item) + (SeparatorText(item.separator) + tail), some, afterComma)
            == Consed(item.text, Scan(tail, true, false))
  {
    var rest := SeparatorText(item.separator) + tail;
    if SeparatorText(item.separator) != "" {
      SeparatorStarts(item.separator, tail);
    } else {
      assert rest == tail;
    }
    ItemRead(item, rest, some, afterComma);
    SkipSeparator(item.separator, tail);
  }

  lemma TextsCons(items: seq<Item>)
    requires items != []
    ensures Texts(items) == [items[0].text] + Texts(items[1..])
  {
  }

  lemma {:induction false} ItemsRead(items: seq<Item>, comment: string, some: bool, afterComma: bool)
    requires Legal(items) && CommentLegal(comment)
    ensures Scan(PrintItems(items, comment), some, afterComma) == Some(Texts(items))
    decreases |items|
  {
    if items == [] {
      assert Texts(items) == [];
      CommentRead(comment, some, afterComma);
    } else {
      var tail := PrintItems(items[1..], comment);
      LegalRest(items);
      TailReady(items, comment);
      ItemStep(items[0], tail, some, afterComma);
      ItemsRead(items[1..], comment, true, false);
      TextsCons(items);
    }
  }

  lemma CommentRead(comment: string, some: bool, afterComma: bool)
    requires CommentLegal(comment)
    ensures Scan(comment, some, afterComma) == Some([])
  {
  }

  lemma TailReady(items: seq<Item>, comment: string)
    requires Legal(items) && CommentLegal(comment) && items != []
    ensures var tail := PrintItems(items[1..], comment);
            && NoCommaNext(tail)
            && (SeparatorText(items[0].separator) != "" || tail == "" || IsDelimiter(tail[0]))
  {
    LegalRest(items);
    RestStarts(items[1..], comment);
  }

  /** Tokenizing undoes printing. */
  lemma PrintedRead(lead: string, items: seq<Item>, comment: string)
    requires AllSpace(lead) && Legal(items) && CommentLegal(comment)
    ensures Scan(Print(lead, items, comment), false, false) == Some(Texts(items))
  {
    SkipSpace(lead, PrintItems(items, comment), false, false);
    ItemsRead(items, comment, false, false);
  }

  // ----- whatever is read was printed

  lemma {:induction false} UnquoteInverse(s: string, quote: char)
    requires Unquote(s, quote).Some?
    ensures var read := Unquote(s, quote).value;
            s == (Doubled(read.0, quote) + [quote]) + read.1
    decreases |s|
  {
    var read := Unquote(s, quote).value;
    if s[0] == quote && |s| > 1 && s[1] == quote {
      UnquoteInverse(s[2..], quote);
      assert s == [quote, quote] + s[2..] && read.0[1..] == Unquote(s[2..], quote).value.0;
    } else if s[0] == quote {
      assert s == [quote] + s[1..];
    } else {
      UnquoteInverse(s[1..], quote);
      assert s == [s[0]] + s[1..] && read.0[1..] == Unquote(s[1..], quote).value.0;
    }
  }

  function Widened(c: char, lead: Separator): Separator {
    match lead
    case Blanks(blanks) => Blanks([c] + blanks)
    case Comma(before, after) => Comma([c] + before, after)
  }

  lemma WidenedText(c: char, lead: Separator)
    requires IsSpace(c) && SeparatorLegal(lead)
    ensures SeparatorLegal(Widened(c, lead)) && SeparatorText(Widened(c, lead)) == [c] + SeparatorText(lead)
  {
  }

  /** The separator, values and comment of an accepted rest of a record. */
  lemma {:induction false} Rebuild(s: string, some: bool, afterComma: bool)
    returns (lead: Separator, items: seq<Item>, comment: string)
    requires Scan(s, some, afterComma).Some?
    ensures SeparatorLegal(lead) && Legal(items) && CommentLegal(comment)
    ensures lead.Comma? ==> some && !afterComma
    ensures s == SeparatorText(lead) + PrintItems(items, comment)
    ensures Scan(s, some, afterComma) == Some(Texts(items))
    decreases |s|, 1
  {
    if s == "" || EndsRecord(s[0]) {
      lead, items, comment := Blanks(""), [], s;
      assert "" + s == s && Texts([]) == [];
    } else if IsSpace(s[0]) {
      lead, items, comment := Rebuild(s[1..], some, afterComma);
      WidenedText(s[0], lead);
      Prepended(s, SeparatorText(lead), PrintItems(items, comment));
      lead := Widened(s[0], lead);
    } else if s[0] == ',' {
      lead, items, comment := Rebuild(s[1..], some, true);
      Prepended(s, SeparatorText(lead), PrintItems(items, comment));
      lead := Comma("", lead.blanks);
      assert SeparatorText(lead) == [','] + lead.after;
    } else {
      lead, items, comment := RebuildValue(s, some, afterComma);
    }
  }

  lemma Prepended(s: string, front: string, rest: string)
    requires s != "" && s[1..] == front + rest
    ensures s == ([s[0]] + front) + rest
  {
    assert s == [s[0]] + s[1..];
  }

  lemma {:induction false} RebuildValue(s: string, some: bool, afterComma: bool)
    returns (lead: Separator, items: seq<Item>, comment: string)
    requires s != "" && !IsDelimiter(s[0]) && Scan(s, some, afterComma).Some?
    ensures lead == Blanks("") && Legal(items) && CommentLegal(comment)
    ensures s == SeparatorText(lead) + PrintItems(items, comment)
    ensures Scan(s, some, afterComma) == Some(Texts(items))
    decreases |s|, 0
  {
    var item, rest := RebuildItem(s, some, afterComma);
    var separator, others;
    separator, others, comment := Rebuild(rest, true, false);
    items := AttachItem(item, separator, others, comment, rest);
    lead := Blanks("");
    assert "" + PrintItems(items, comment) == PrintItems(items, comment);
  }

  lemma RebuildItem(s: string, some: bool, afterComma: bool) returns (item: Item, rest: string)
    requires s != "" && !IsDelimiter(s[0]) && Scan(s, some, afterComma).Some?
    ensures item.separator == Blanks("") && ItemLegal(item) && s == Shown(item) + rest && |rest| < |s|
    ensures rest == "" || IsDelimiter(rest[0])
    ensures Scan(s, some, afterComma) == Consed(item.text, Scan(rest, true, false))
  {
    if IsQuote(s[0]) {
      UnquoteInverse(s[1..], s[0]);
      UnquoteShorter(s[1..], s[0]);
      var read := Unquote(s[1..], s[0]).value;
      item, rest := Item(read.0, Quoted(s[0]), Blanks("")), read.1;
      assert s == [s[0]] + ((Doubled(read.0, s[0]) + [s[0]]) + rest);
    } else {
      var n := BareLength(s);
      item, rest := Item(s[..n], Bare, Blanks("")), s[n..];
      assert s == s[..n] + s[n..];
    }
  }

  lemma AttachItem(item: Item, separator: Separator, others: seq<Item>, comment: string, rest: string)
    returns (items: seq<Item>)
    requires ItemLegal(item) && SeparatorLegal(separator) && Legal(others) && CommentLegal(comment)
    requires rest == SeparatorText(separator) + PrintItems(others, comment) && (rest == "" || IsDelimiter(rest[0]))
    ensures Legal(items) && PrintItems(items, comment) == Shown(item) + rest
    ensures Texts(items) == [item.text] + Texts(others)
  {
    var first := item.(separator := separator);
    items := [first] + others;
    if others != [] {
      SeparatorNeeded(separator, others, comment, rest);
    }
    LegalCons(first, others);
    PrintCons(first, others, comment);
    TextsCons(items);
    assert items[1..] == others && Shown(first) == Shown(item);
  }

  lemma LegalCons(first: Item, others: seq<Item>)
    requires ItemLegal(first) && Legal(others) && (others != [] ==> SeparatorText(first.separator) != "")
    ensures Legal([first] + others)
  {
    var items := [first] + others;
    forall i | 0 <= i < |items| - 1
      ensures SeparatorText(items[i].separator) != ""
    {
      if i > 0 {
        assert items[i] == others[i - 1];
      }
    }
  }

  lemma PrintCons(first: Item, others: seq<Item>, comment: string)
    ensures PrintItems([first] + others, comment)
            == Shown(first) + (SeparatorText(first.separator) + PrintItems(others, comment))
  {
    assert ([first] + others)[1..] == others;
  }

  lemma SeparatorNeeded(separator: Separator, others: seq<Item>, comment: string, rest: string)
    requires others != [] && Legal(others)
    requires rest == SeparatorText(separator) + PrintItems(others, comment) && (rest == "" || IsDelimiter(rest[0]))
    ensures SeparatorText(separator) != ""
  {
    assert ItemLegal(others[0]);
    ShownStarts(others[0]);
    assert PrintItems(others, comment)[0] == Shown(others[0])[0];
    assert "" + PrintItems(others, comment) == PrintItems(others, comment);
  }

  /** The record prints these values. */
  ghost predicate Prints(record: string, values: seq<string>) {
    exists lead, items, comment :: PrintsAs(record, values, lead, items, comment)
  }

  ghost predicate PrintsAs(record: string, values: seq<string>, lead: string, items: seq<Item>, comment: string) {
    && AllSpace(lead) && Legal(items) && CommentLegal(comment)
    && record == Print(lead, items, comment) && values == Texts(items)
  }

  /** The tokenizer accepts exactly the printed records, and reads each as the values it prints: so a null value, a
      leading comma or two commas in a row, is always rejected. */
  lemma AcceptsExactly(record: string, values: seq<string>)
    ensures Scan(record, false, false) == Some(values) <==> Prints(record, values)
  {
    if Scan(record, false, false) == Some(values) {
      var lead, items, comment := Rebuild(record, false, false);
      assert PrintsAs(record, values, lead.blanks, items, comment);
    }
    if Prints(record, values) {
      var lead, items, comment :| PrintsAs(record, values, lead, items, comment);
      PrintedRead(lead, items, comment);
    }
  }

  /** No value before a comma. */
  lemma LeadingCommaRejected(blanks: string, rest: string)
    requires AllSpace(blanks)
    ensures Scan(blanks + ([','] + rest), false, false) == None
  {
    SkipSpace(blanks, [','] + rest, false, false);
  }

  /** No value between two commas. */
  lemma DoubleCommaRejected(before: string, blanks: string, rest: string)
    requires AllSpace(before) && AllSpace(blanks)
    ensures Scan(before + ([','] + (blanks + ([','] + rest))), true, false) == None
  {
    var inner := blanks + ([','] + rest);
    SkipSpace(before, [','] + inner, true, false);
    assert ([','] + inner)[1..] == inner;
    SkipSpace(blanks, [','] + rest, true, true);
  }

  /** A comma after the last value is accepted, although a null value follows it. */
  lemma TrailingCommaAccepted(text: string)
    requires BareLegal(text)
    ensures Scan(text + [','], false, false) == Some([text])
  {
    BareRead(text, [','], false, false);
    var comma := [','];
    assert comma[1..] == "";
    assert Scan(comma, true, false) == Scan("", true, true) == Some([]);
    assert [text] + [] == [text];
  }

  // ----- the record cursor

  /** A read field: where it came from, its values, and what an ordinary list-directed read discards. */
  datatype Field<V> = Field(name: string, line: nat, raw: string, values: seq<V>, units: seq<string>,
                            trailing: seq<string>)

  /** What a read returns: a single value bare, several as a list. */
  datatype Answer<V> = One(value: V) | Several(values: seq<V>)

  function AnswerOf<V>(values: seq<V>): Answer<V> {
    if |values| == 1 then One(values[0]) else Several(values)
  }

  /** The first values converted, if there are enough and each converter accepts. */
  function Convert<V>(converters: seq<string -> Option<V>>, parts: seq<string>): Option<seq<V>> {
    if converters == [] then Some([])
    else if parts == [] then None
    else
      match converters[0](parts[0])
      case None => None
      case Some(v) =>
        match Convert(converters[1..], parts[1..])
        case None => None
        case Some(rest) => Some([v] + rest)
  }

  /** One value per converter, each from the part at its own position. */
  lemma {:induction false} ConvertExactly<V>(converters: seq<string -> Option<V>>, parts: seq<string>)
    ensures Convert(converters, parts).Some? <==>
              |parts| >= |converters| && forall i :: 0 <= i < |converters| ==> converters[i](parts[i]).Some?
    ensures Convert(converters, parts).Some? ==>
              var values := Convert(converters, parts).value;
              |values| == |converters| && forall i :: 0 <= i < |values| ==> converters[i](parts[i]) == Some(values[i])
    decreases |converters|
  {
    if converters != [] && parts != [] {
      var c, p := converters[1..], parts[1..];
      ConvertExactly(c, p);
      assert forall i :: 0 < i < |converters| ==> converters[i] == c[i - 1];
      assert forall i :: 0 < i < |parts| ==> parts[i] == p[i - 1];
      if |parts| >= |converters| && forall i :: 0 <= i < |converters| ==> converters[i](parts[i]).Some? {
        forall i | 0 <= i < |c|
          ensures c[i](p[i]).Some?
        {
          assert converters[i + 1](parts[i + 1]).Some?;
        }
      }
      if Convert(c, p).Some? && converters[0](parts[0]).Some? {
        forall i | 0 <= i < |converters|
          ensures converters[i](parts[i]).Some?
        {
          if i > 0 {
            assert c[i - 1](p[i - 1]).Some?;
          }
        }
      }
    }
  }

  class Records<V> {
    const lines: seq<string>
    var at: nat
    var fields: seq<Field<V>>

    /** The cursor is inside the text, and every field read so far comes, in order, from its own earlier line. */
    ghost predicate Valid()
      reads this
    {
      && at <= |lines|
      && (forall f :: 0 <= f < |fields| ==> 1 <= fields[f].line <= at && fields[f].raw == lines[fields[f].line - 1])
      && (forall f, g :: 0 <= f < g < |fields| ==> fields[f].line < fields[g].line)
    }

    constructor (lines: seq<string>)
      ensures Valid() && this.lines == lines && at == 0 && fields == []
    {
      this.lines := lines;
      at, fields := 0, [];
    }

    method Skip(n: nat) returns (ok: bool)
      requires Valid()
      modifies this
      ensures Valid() && fields == old(fields)
      ensures ok <==> old(at) + n <= |lines|
      ensures at == if ok then old(at) + n else old(at)
    {
      ok := at + n <= |lines|;
      if ok {
        at := at + n;
      }
    }

    /** One line, tokenized and converted. The line is consumed whether or not its values are accepted. */
    method Read(name: string, converters: seq<string -> Option<V>>, units: seq<string>)
      returns (answer: Option<Answer<V>>)
      requires Valid()
      modifies this
      ensures Valid()
      ensures at == if old(at) < |lines| then old(at) + 1 else old(at)
      ensures answer.Some? <==> old(at) < |lines| && ValuesOf(converters, lines[old(at)]).Some?
      ensures answer.None? ==> fields == old(fields)
      ensures answer.Some? ==>
                var raw, parts := lines[old(at)], Scan(lines[old(at)], false, false).value;
                var values := ValuesOf(converters, raw).value;
                && answer.value == AnswerOf(values) && |parts| >= |converters|
                && fields == old(fields) + [Field(name, at, raw, values, units, parts[|converters|..])]
    {
      if at >= |lines| {
        return None;
      }
      var raw := lines[at];
      at := at + 1;
      var parts := Tokens(raw);
      if parts == None {
        return None;
      }
      var values := Convert(converters, parts.value);
      ConvertExactly(converters, parts.value);
      if values == None {
        return None;
      }
      fields := fields + [Field(name, at, raw, values.value, units, parts.value[|converters|..])];
      answer := Some(AnswerOf(values.value));
    }
  }

  /** The values of a line for some converters. */
  function ValuesOf<V>(converters: seq<string -> Option<V>>, line: string): Option<seq<V>> {
    match Scan(line, false, false)
    case None => None
    case Some(parts) => Convert(converters, parts)
  }
}
