/** Python's `%` on strings, with a table of code-reference tags on the right: which texts it accepts, and what it
    makes of the percent signs it meets. */
module PercentFormat {
  import opened Wrappers
  import S = Sequences

  // ---- Numbers, tags and the table ----

  function Decimal(n: nat): string {
    if n < 10 then [Digit(n)] else Decimal(n / 10) + [Digit(n % 10)]
  }

  function Digit(d: nat): char
    requires d < 10
  {
    "0123456789"[d]
  }

  predicate IsDigit(c: char) {
    '0' <= c <= '9'
  }

  /** The number written by some digits; no digits write 0. */
  function NumberOf(ds: string): nat {
    if ds == "" then 0 else 10 * NumberOf(ds[..|ds| - 1]) + DigitValue(ds[|ds| - 1])
  }

  function DigitValue(c: char): nat {
    if IsDigit(c) then c as nat - '0' as nat else 0
  }

  function Tag(n: nat): string {
    "<code-ref-" + Decimal(n) + ">"
  }

  function Key(id: nat): string {
    "repl" + Decimal(id)
  }

  /** The table maps Key(id) to Tag(base + id) for id below count. */
  datatype Table = Table(base: nat, count: nat)

  function LookUp(key: string, count: nat): Option<nat> {
    if count == 0 then None else if key == Key(count - 1) then Some(count - 1) else LookUp(key, count - 1)
  }

  function Entries(t: Table, from: nat): string
    requires from <= t.count
    decreases t.count - from
  {
    if from == t.count then ""
    else
      (if from == 0 then "" else ", ") + "'" + Key(from) + "': '" + Tag(t.base + from) + "'" + Entries(t, from + 1)
  }

  /** How the whole table is written. */
  function Dump(t: Table): string {
    "{" + Entries(t, 0) + "}"
  }

  // ---- One conversion ----

  /** What is taken from the front of a text, and the rest. */
  datatype Taken = Taken(front: string, rest: string)

  /** The key up to the closing parenthesis that matches; parentheses inside it count. */
  function TakeKey(s: string, depth: nat): (r: Option<Taken>)
    ensures r.Some? ==> |r.value.rest| < |s|
  {
    if s == "" then None
    else if s[0] == ')' && depth == 0 then Some(Taken("", s[1..]))
    else
      var k := TakeKey(s[1..], if s[0] == '(' then depth + 1 else if s[0] == ')' then depth - 1 else depth);
      if k.None? then None else Some(Taken([s[0]] + k.value.front, k.value.rest))
  }

  predicate IsFlag(c: char) {
    c == '-' || c == '+' || c == ' ' || c == '#' || c == '0'
  }

  predicate IsSize(c: char) {
    c == 'h' || c == 'l' || c == 'L'
  }

  /** The conversions that take any value; the others want numbers or a single character and fail. */
  predicate IsShown(c: char) {
    c == 's' || c == 'r' || c == 'a'
  }

  function TakeFlags(s: string): (r: Taken)
    ensures |r.rest| <= |s|
  {
    if s == "" || !IsFlag(s[0]) then Taken("", s)
    else var k := TakeFlags(s[1..]); Taken([s[0]] + k.front, k.rest)
  }

  function TakeDigits(s: string): (r: Taken)
    ensures |r.rest| <= |s|
  {
    if s == "" || !IsDigit(s[0]) then Taken("", s)
    else var k := TakeDigits(s[1..]); Taken([s[0]] + k.front, k.rest)
  }

  /** A precision, if there is a point. */
  function TakePrecision(s: string): (r: Taken)
    ensures |r.rest| <= |s|
  {
    if s == "" || s[0] != '.' then Taken("", s)
    else var k := TakeDigits(s[1..]); Taken("." + k.front, k.rest)
  }

  function TakeSize(s: string): (r: Taken)
    ensures |r.rest| <= |s|
  {
    if s == "" || !IsSize(s[0]) then Taken("", s) else Taken([s[0]], s[1..])
  }

  /** Flags, width, precision, a length letter and the conversion letter. */
  datatype Layout = Layout(left: bool, width: nat, precision: Option<nat>, letter: char)

  /** The layout, what it is read from, and the rest. None stands for an incomplete format. A star, which wants a
      number that is never there, fails as a letter. */
  function TakeLayout(s: string): (r: Option<(Layout, string, string)>)
    ensures r.Some? ==> |r.value.2| < |s|
  {
    var flags := TakeFlags(s);
    var width := TakeDigits(flags.rest);
    var point := TakePrecision(width.rest);
    var size := TakeSize(point.rest);
    if size.rest == "" then None
    else
      Some((Layout('-' in flags.front, NumberOf(width.front), if point.front == "" then None else Some(NumberOf(point.front[1..])),
                   size.rest[0]),
            flags.front + width.front + point.front + size.front + [size.rest[0]],
            size.rest[1..]))
  }

  function Spaces(n: nat): string {
    seq(n, i => ' ')
  }

  function Pad(s: string, l: Layout): string {
    var gap := Spaces(if |s| < l.width then l.width - |s| else 0);
    if l.left then s + gap else gap + s
  }

  function Cut(s: string, l: Layout): string {
    if l.precision.Some? && l.precision.value < |s| then s[..l.precision.value] else s
  }

  function Quoted(s: string, l: Layout): string {
    if l.letter == 's' then s else "'" + s + "'"
  }

  /** One conversion, after its percent sign: the part of the format used, what is put out, and whether the whole
      table still waits to be converted. A conversion with a key converts that entry; without, the whole table,
      once and before any entry. */
  datatype Step = Fail | Put(used: string, out: string, whole: bool, rest: string)

  function Convert(s: string, whole: bool, t: Table): (r: Step)
    ensures r.Put? ==> |r.rest| < |s|
  {
    if s == "" then Fail
    else if s[0] == '%' then Put("%", "%", whole, s[1..])
    else if s[0] == '(' then
      var key := TakeKey(s[1..], 0);
      if key.None? then Fail
      else
        var id := LookUp(key.value.front, t.count);
        var l := TakeLayout(key.value.rest);
        if id.None? || l.None? || !IsShown(l.value.0.letter) then Fail
        else
          var (layout, used, rest) := l.value;
          Put("(" + key.value.front + ")" + used, Pad(Cut(Quoted(Tag(t.base + id.value), layout), layout), layout), false, rest)
    else
      var l := TakeLayout(s);
      if l.None? || !IsShown(l.value.0.letter) || !whole then Fail
      else var (layout, used, rest) := l.value; Put(used, Pad(Cut(Dump(t), layout), layout), false, rest)
  }

  datatype Outcome = Raised | Done(out: string)

  /** The whole format. */
  function Format(f: string, whole: bool, t: Table): Outcome
    decreases |f|
  {
    if f == "" then Done("")
    else if f[0] != '%' then
      var k := Format(f[1..], whole, t);
      if k.Raised? then Raised else Done([f[0]] + k.out)
    else
      var step := Convert(f[1..], whole, t);
      if step.Fail? then Raised
      else
        var k := Format(step.rest, step.whole, t);
        if k.Raised? then Raised else Done(step.out + k.out)
  }

  // ---- Numbers and keys are told apart ----

  lemma DigitIsRead(d: nat)
    requires d < 10
    ensures IsDigit(Digit(d)) && DigitValue(Digit(d)) == d
  {}

  lemma {:induction false} DecimalValue(n: nat)
    ensures NumberOf(Decimal(n)) == n && Decimal(n) != "" && forall c :: c in Decimal(n) ==> IsDigit(c)
  {
    DigitIsRead(n % 10);
    var init := if n < 10 then "" else Decimal(n / 10);
    if n >= 10 { DecimalValue(n / 10); }
    assert Decimal(n) == init + [Digit(n % 10)];
    S.InitOfConcat(init, Digit(n % 10));
    assert NumberOf(init) == n / 10;
    hide Digit, DigitValue, IsDigit, Decimal;
  }

  lemma {:induction false} LookUpFinds(id: nat, count: nat)
    requires id < count
    ensures LookUp(Key(id), count) == Some(id)
  {
    if id < count - 1 {
      LookUpFinds(id, count - 1);
      if Key(id) == Key(count - 1) {
        assert Decimal(id) == Key(id)[4..] == Key(count - 1)[4..] == Decimal(count - 1);
        DecimalValue(id);
        DecimalValue(count - 1);
      }
    }
  }

  lemma {:induction false} LookUpIsKey(key: string, count: nat)
    ensures LookUp(key, count).Some? ==> LookUp(key, count).value < count && key == Key(LookUp(key, count).value)
  {
    if count > 0 { LookUpIsKey(key, count - 1); }
  }

  lemma {:induction false} TakeWholeKey(key: string, rest: string)
    requires '(' !in key && ')' !in key
    ensures TakeKey(key + ")" + rest, 0) == Some(Taken(key, rest))
  {
    var s := key + ")" + rest;
    if key == "" {
      assert s[1..] == rest;
    } else {
      assert s[1..] == key[1..] + ")" + rest;
      TakeWholeKey(key[1..], rest);
      assert [key[0]] + key[1..] == key;
    }
  }

  lemma KeyHasNoParens(id: nat)
    ensures '(' !in Key(id) && ')' !in Key(id)
  {
    DecimalValue(id);
    var word := "repl";
    assert forall i :: 0 <= i < |word| ==> word[i] != '(' && word[i] != ')';
    assert forall c :: c in Key(id) ==> c in word || c in Decimal(id);
  }

  /** A placeholder becomes its tag. */
  lemma ConvertPlaceholder(id: nat, rest: string, whole: bool, t: Table)
    requires id < t.count
    ensures var s := "(" + Key(id) + ")s" + rest;
            Convert(s, whole, t) == Put("(" + Key(id) + ")s", Tag(t.base + id), false, rest)
  {
    var s := "(" + Key(id) + ")s" + rest;
    KeyHasNoParens(id);
    LookUpFinds(id, t.count);
    KeyedText(Key(id), rest);
    TakeWholeKey(Key(id), "s" + rest);
    PlainLayout(rest);
    PlainShown(Tag(t.base + id));
    ConvertKeyed(s, whole, t, Taken(Key(id), "s" + rest), id, Layout(false, 0, None, 's'), "s", rest);
    hide Key, Tag, TakeKey, TakeLayout, LookUp, Pad, Cut, Quoted, Convert;
  }

  lemma KeyedText(key: string, rest: string)
    ensures var s := "(" + key + ")s" + rest; s != "" && s[0] == '(' && s[1..] == key + ")" + ("s" + rest)
    ensures "(" + key + ")" + "s" == "(" + key + ")s"
  {}

  lemma ConvertKeyed(s: string, whole: bool, t: Table, key: Taken, id: nat, l: Layout, used: string, rest: string)
    requires s != "" && s[0] == '(' && TakeKey(s[1..], 0) == Some(key) && LookUp(key.front, t.count) == Some(id)
    requires TakeLayout(key.rest) == Some((l, used, rest)) && IsShown(l.letter)
    ensures Convert(s, whole, t) ==
            Put("(" + key.front + ")" + used, Pad(Cut(Quoted(Tag(t.base + id), l), l), l), false, rest)
  {
    hide TakeKey, TakeLayout, LookUp, Pad, Cut, Quoted, Tag;
  }

  lemma PlainShown(shown: string)
    ensures var l := Layout(false, 0, None, 's');
            Pad(Cut(shown, l), l) == shown && Pad(Cut(Quoted(shown, l), l), l) == shown
  {
    assert Spaces(0) == "";
    S.Empty(shown);
  }

  lemma NoneTaken(s: string)
    requires s != "" && !IsFlag(s[0]) && !IsDigit(s[0]) && !IsSize(s[0]) && s[0] != '.'
    ensures TakeFlags(s) == Taken("", s) && TakeDigits(s) == Taken("", s)
    ensures TakePrecision(s) == Taken("", s) && TakeSize(s) == Taken("", s)
  {}

  lemma PlainLayout(rest: string)
    ensures TakeLayout("s" + rest) == Some((Layout(false, 0, None, 's'), "s", rest))
  {
    var s := "s" + rest;
    assert s[0] == 's' && s[1..] == rest;
    LetterIsNoLayout('s');
    NoneTaken(s);
    NothingBefore('s');
    hide TakeFlags, TakeDigits, TakePrecision, TakeSize;
  }

  lemma LetterIsNoLayout(c: char)
    requires IsShown(c)
    ensures !IsFlag(c) && !IsDigit(c) && !IsSize(c) && c != '.'
  {}

  lemma NothingBefore(c: char)
    ensures "" + "" + "" + "" + [c] == [c]
  {}

  /** Text without percent signs passes unchanged. */
  lemma {:induction false} FormatPlain(x: string, f: string, whole: bool, t: Table)
    requires '%' !in x
    ensures Format(x + f, whole, t) ==
            if Format(f, whole, t).Raised? then Raised else Done(x + Format(f, whole, t).out)
  {
    if x == "" {
      S.Empty(f);
      if Format(f, whole, t).Done? { S.Empty(Format(f, whole, t).out); }
    } else {
      S.TailOfConcat(x, f);
      FormatPlain(x[1..], f, whole, t);
      if Format(f, whole, t).Done? {
        S.HeadAndTail(x);
        S.Assoc([x[0]], x[1..], Format(f, whole, t).out);
      }
    }
  }

  // ---- Counting characters ----

  function Count(s: string, c: char): nat {
    if s == "" then 0 else (if s[0] == c then 1 else 0) + Count(s[1..], c)
  }

  lemma {:induction false} CountConcat(a: string, b: string, c: char)
    ensures Count(a + b, c) == Count(a, c) + Count(b, c)
  {
    if a == "" { S.Empty(b); } else {
      S.TailOfConcat(a, b);
      CountConcat(a[1..], b, c);
    }
  }

  lemma {:induction false} CountNone(s: string, c: char)
    ensures c !in s <==> Count(s, c) == 0
  {
    if s != "" {
      CountNone(s[1..], c);
      S.HeadAndTail(s);
    }
  }

  lemma CountOne(a: char, c: char)
    ensures Count([a], c) == if a == c then 1 else 0
  {
    assert [a][1..] == "";
  }

  predicate IsCounted(c: char) {
    c == '<' || c == '{' || c == '%'
  }

  lemma PlainWords(c: char)
    requires IsCounted(c)
    ensures Count("code-ref-", c) == 0 && Count("repl", c) == 0 && Count(">", c) == 0
  {
    var w := "code-ref-";
    assert forall i :: 0 <= i < |w| ==> w[i] != c;
    CountNone(w, c);
    CountNone("repl", c);
    CountNone(">", c);
  }

  lemma CountDecimal(n: nat, c: char)
    requires IsCounted(c)
    ensures Count(Decimal(n), c) == 0
  {
    DecimalValue(n);
    CountNone(Decimal(n), c);
  }

  lemma CountTag(n: nat, c: char)
    requires IsCounted(c)
    ensures Count(Tag(n), c) == if c == '<' then 1 else 0
  {
    PlainWords(c);
    CountDecimal(n, c);
    CountOne('<', c);
    hide Count;
    assert Tag(n) == "<" + ("code-ref-" + (Decimal(n) + ">"));
    CountConcat("<", "code-ref-" + (Decimal(n) + ">"), c);
    CountConcat("code-ref-", Decimal(n) + ">", c);
    CountConcat(Decimal(n), ">", c);
  }

  lemma CountKey(id: nat, c: char)
    requires IsCounted(c)
    ensures Count(Key(id), c) == 0
  {
    PlainWords(c);
    CountDecimal(id, c);
    CountConcat("repl", Decimal(id), c);
  }

  /** What a piece of output may hold, for the piece of format it comes from: no fewer opening braces, and when
      no more of them, angle brackets and twice the percent signs are paid for by those of the format. */
  predicate Paid(used: string, out: string) {
    Count(used, '{') <= Count(out, '{') &&
    (Count(used, '{') == Count(out, '{') ==>
       Count(out, '<') + 2 * Count(out, '%') <= Count(used, '<') + Count(used, '%'))
  }

  lemma PaidConcat(a: string, b: string, x: string, y: string)
    requires Paid(a, x) && Paid(b, y)
    ensures Paid(a + b, x + y)
  {
    CountConcat(a, b, '{'); CountConcat(x, y, '{');
    CountConcat(a, b, '<'); CountConcat(x, y, '<');
    CountConcat(a, b, '%'); CountConcat(x, y, '%');
    hide Count;
  }

  lemma {:induction false} FlagsTaken(s: string)
    ensures s == TakeFlags(s).front + TakeFlags(s).rest && Count(TakeFlags(s).front, '{') == 0
  {
    if s != "" && IsFlag(s[0]) {
      FlagsTaken(s[1..]);
      S.HeadAndTail(s);
      TakenMore(s[0], TakeFlags(s[1..]));
    }
  }

  lemma {:induction false} DigitsTaken(s: string)
    ensures s == TakeDigits(s).front + TakeDigits(s).rest && Count(TakeDigits(s).front, '{') == 0
  {
    if s != "" && IsDigit(s[0]) {
      DigitsTaken(s[1..]);
      S.HeadAndTail(s);
      TakenMore(s[0], TakeDigits(s[1..]));
    }
  }

  lemma TakenMore(c: char, k: Taken)
    requires c != '{'
    ensures [c] + k.front + k.rest == [c] + (k.front + k.rest) && Count([c] + k.front, '{') == Count(k.front, '{')
  {
    assert ([c] + k.front)[1..] == k.front;
  }

  lemma PrecisionTaken(s: string)
    ensures s == TakePrecision(s).front + TakePrecision(s).rest && Count(TakePrecision(s).front, '{') == 0
  {
    if s != "" && s[0] == '.' {
      DigitsTaken(s[1..]);
      S.HeadAndTail(s);
      TakenMore('.', TakeDigits(s[1..]));
    }
  }

  lemma SizeTaken(s: string)
    ensures s == TakeSize(s).front + TakeSize(s).rest && Count(TakeSize(s).front, '{') == 0
  {
    if s != "" && IsSize(s[0]) {
      S.HeadAndTail(s);
      CountOne(s[0], '{');
    }
  }

  lemma LayoutTaken(s: string)
    requires TakeLayout(s).Some? && IsShown(TakeLayout(s).value.0.letter)
    ensures var (_, used, rest) := TakeLayout(s).value; s == used + rest && Count(used, '{') == 0
  {
    var flags := TakeFlags(s);
    var width := TakeDigits(flags.rest);
    var point := TakePrecision(width.rest);
    var size := TakeSize(point.rest);
    FlagsTaken(s);
    DigitsTaken(flags.rest);
    PrecisionTaken(width.rest);
    SizeTaken(point.rest);
    S.HeadAndTail(size.rest);
    var letter := [size.rest[0]];
    CountOne(size.rest[0], '{');
    hide TakeFlags, TakeDigits, TakePrecision, TakeSize, Count;
    CountConcat(flags.front, width.front, '{');
    CountConcat(flags.front + width.front, point.front, '{');
    CountConcat(flags.front + width.front + point.front, size.front, '{');
    CountConcat(flags.front + width.front + point.front + size.front, letter, '{');
    FiveParts(flags.front, width.front, point.front, size.front, letter, size.rest[1..]);
  }

  lemma FiveParts(a: string, b: string, c: string, d: string, e: string, f: string)
    ensures a + (b + (c + (d + (e + f)))) == a + b + c + d + e + f
  {}

  /** Padding adds nothing that is counted. */
  lemma CountPad(s: string, l: Layout, c: char)
    requires c != ' '
    ensures Count(Pad(s, l), c) == Count(s, c)
  {
    var gap := Spaces(if |s| < l.width then l.width - |s| else 0);
    CountNone(gap, c);
    CountConcat(s, gap, c);
    CountConcat(gap, s, c);
  }

  lemma CountCut(s: string, l: Layout, c: char)
    ensures Count(Cut(s, l), c) <= Count(s, c)
  {
    if l.precision.Some? && l.precision.value < |s| {
      var p := l.precision.value;
      assert s == s[..p] + s[p..];
      CountConcat(s[..p], s[p..], c);
    }
  }

  lemma CountQuoted(tag: string, l: Layout, c: char)
    requires c != '\''
    ensures Count(Quoted(tag, l), c) == Count(tag, c)
  {
    CountOne('\'', c);
    CountConcat("'" + tag, "'", c);
    CountConcat("'", tag, c);
  }

  lemma KeyPart(key: Taken, s: string)
    requires TakeKey(s, 0) == Some(key)
    ensures s == key.front + ")" + key.rest
  {
    KeyTaken(s, 0);
  }

  lemma {:induction false} KeyTaken(s: string, depth: nat)
    ensures TakeKey(s, depth).Some? ==> s == TakeKey(s, depth).value.front + ")" + TakeKey(s, depth).value.rest
  {
    if s != "" && !(s[0] == ')' && depth == 0) {
      var d := if s[0] == '(' then depth + 1 else if s[0] == ')' then depth - 1 else depth;
      KeyTaken(s[1..], d);
      S.HeadAndTail(s);
    } else if s != "" {
      S.HeadAndTail(s);
    }
  }

  /** An entry: at most its tag, and nothing else that is counted. */
  lemma EntryIsPaid(key: string, id: nat, n: nat, layout: Layout, used: string)
    requires key == Key(id) && Count(used, '{') == 0
    ensures Paid("%" + ("(" + key + ")" + used), Pad(Cut(Quoted(Tag(n), layout), layout), layout))
  {
    var out := Pad(Cut(Quoted(Tag(n), layout), layout), layout);
    forall c | IsCounted(c) ensures Count(out, c) <= if c == '<' then 1 else 0 {
      CountTag(n, c);
      CountQuoted(Tag(n), layout, c);
      CountCut(Quoted(Tag(n), layout), layout, c);
      CountPad(Cut(Quoted(Tag(n), layout), layout), layout, c);
      hide Count, Pad, Cut, Quoted, Tag;
    }
    CountOne('%', '{');
    CountOne('%', '%');
    CountOne('(', '{');
    CountOne(')', '{');
    CountKey(id, '{');
    hide Count, Pad, Cut, Quoted, Tag, Key;
    CountConcat("%", "(" + key + ")" + used, '{');
    CountConcat("(" + key + ")", used, '{');
    CountConcat("(" + key, ")", '{');
    CountConcat("(", key, '{');
    CountConcat("%", "(" + key + ")" + used, '%');
    assert IsCounted('<') && IsCounted('%') && IsCounted('{');
  }

  /** The whole table: it starts with a brace, so cut to nothing it is harmless and otherwise it is told. */
  lemma TableIsPaid(t: Table, layout: Layout, used: string)
    requires Count(used, '{') == 0
    ensures Paid("%" + used, Pad(Cut(Dump(t), layout), layout))
  {
    var cut := Cut(Dump(t), layout);
    CountPad(cut, layout, '{');
    CountPad(cut, layout, '<');
    CountPad(cut, layout, '%');
    CountConcat("%", used, '{');
    CountConcat("%", used, '%');
    CountOne('%', '{');
    CountOne('%', '%');
    if cut != "" {
      assert cut[0] == '{';
      assert Count(cut, '{') >= 1;
    }
    hide Pad, Cut, Dump;
  }

  lemma PercentIsPaid()
    ensures Paid("%" + "%", "%")
  {
    forall c: char ensures Count("%", c) == (if c == '%' then 1 else 0) && Count("%" + "%", c) == 2 * Count("%", c) {
      CountOne('%', c);
      CountConcat("%", "%", c);
    }
  }

  lemma PlainIsPaid(c: char)
    requires c != '%'
    ensures Paid([c], [c])
  {
    CountOne(c, '%');
  }

  lemma ConvertIsPaid(s: string, whole: bool, t: Table)
    ensures var r := Convert(s, whole, t);
            r.Put? ==> s == r.used + r.rest && Paid("%" + r.used, r.out)
  {
    if Convert(s, whole, t).Put? {
      if s[0] == '%' {
        S.HeadAndTail(s);
        PercentIsPaid();
      } else if s[0] == '(' {
        KeyedIsPaid(s, whole, t);
      } else {
        LayoutTaken(s);
        var (layout, used, rest) := TakeLayout(s).value;
        TableIsPaid(t, layout, used);
      }
      hide Paid, TakeLayout, TakeKey, Pad, Cut, Dump;
    }
  }

  lemma KeyedIsPaid(s: string, whole: bool, t: Table)
    requires s != "" && s[0] == '(' && Convert(s, whole, t).Put?
    ensures var r := Convert(s, whole, t);
            s == r.used + r.rest && Paid("%" + r.used, r.out)
  {
    var key := TakeKey(s[1..], 0).value;
    KeyPart(key, s[1..]);
    LookUpIsKey(key.front, t.count);
    LayoutTaken(key.rest);
    var id := LookUp(key.front, t.count).value;
    var (layout, used, rest) := TakeLayout(key.rest).value;
    EntryIsPaid(key.front, id, t.base + id, layout, used);
    hide Paid, TakeKey, TakeLayout, LookUp, Pad, Cut, Quoted, Tag, Key;
    KeyedParts(s, key.front, used, rest);
  }

  lemma KeyedParts(s: string, key: string, used: string, rest: string)
    requires s != "" && s[0] == '(' && s[1..] == key + ")" + (used + rest)
    ensures s == "(" + key + ")" + used + rest
  {
    assert s == "(" + s[1..];
  }

  /** A whole format never yields more than it pays for. */
  lemma {:induction false} FormatIsPaid(f: string, whole: bool, t: Table)
    ensures Format(f, whole, t).Done? ==> Paid(f, Format(f, whole, t).out)
    decreases |f|
  {
    hide Paid, Convert;
    if f == "" {
      NothingIsPaid();
    } else {
      S.HeadAndTail(f);
      if f[0] != '%' {
        FormatIsPaid(f[1..], whole, t);
        if Format(f[1..], whole, t).Done? {
          PlainIsPaid(f[0]);
          PaidConcat([f[0]], f[1..], [f[0]], Format(f[1..], whole, t).out);
        }
      } else {
        ConvertIsPaid(f[1..], whole, t);
        var step := Convert(f[1..], whole, t);
        if step.Put? {
          FormatIsPaid(step.rest, step.whole, t);
          if Format(step.rest, step.whole, t).Done? {
            PaidConcat("%" + step.used, step.rest, step.out, Format(step.rest, step.whole, t).out);
            S.Assoc("%", step.used, step.rest);
          }
        }
      }
    }
  }

  lemma NothingIsPaid()
    ensures Paid("", "")
  {}
}
