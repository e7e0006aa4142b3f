/** The Camoufox configuration in environment variables (host_runtime.py, `normalize_camou_config_env`): reassembled
    from numbered chunks, compared with the stored configuration, and cut up again. An environment is a Python
    dict, in its order; `int` and JSON are parameters. */
module ConfigEnv {
  import opened Commons

  datatype Entry = Entry(key: string, value: string)

  type Env = seq<Entry>

  ghost predicate IsDict(env: Env) {
    forall i, j | 0 <= i < j < |env| :: env[i].key != env[j].key
  }

  /** `env[key] = value` */
  function Assign(env: Env, key: string, value: string): Env {
    if exists i | 0 <= i < |env| :: env[i].key == key
    then seq(|env|, i requires 0 <= i < |env| => if env[i].key == key then Entry(key, value) else env[i])
    else env + [Entry(key, value)]
  }

  const PREFIX := "CAMOU_CONFIG_"

  predicate IsChunk(key: string) { PREFIX <= key }

  // ---- keys --------------------------------------------------------------

  function Digit(n: nat): char
    requires n < 10
  {
    "0123456789"[n]
  }

  function Decimal(n: nat): (text: string)
    ensures '_' !in text && text != ""
  {
    if n < 10 then [Digit(n)] else Decimal(n / 10) + [Digit(n % 10)]
  }

  function Power(base: nat, e: nat): nat { if e == 0 then 1 else base * Power(base, e - 1) }

  /** The number a text of digits stands for, each digit weighed by its place. */
  function ValueOf(text: string): int {
    if text == "" then 0 else (text[0] as int - '0' as int) * Power(10, |text| - 1) + ValueOf(text[1..])
  }

  /** ASCII digits without a needless leading zero. */
  ghost predicate IsNumeral(text: string) {
    && text != "" && (forall c | c in text :: '0' <= c <= '9')
    && (|text| > 1 ==> text[0] != '0')
  }

  lemma {:induction false} ValueOfMore(text: string, digit: char)
    ensures ValueOf(text + [digit]) == 10 * ValueOf(text) + digit as int - '0' as int
  {
    var more := text + [digit];
    if text != "" {
      ValueOfMore(text[1..], digit);
      assert more[1..] == text[1..] + [digit];
    }
  }

  lemma FrontIsNumeral(text: string)
    requires IsNumeral(text) && |text| > 1
    ensures IsNumeral(text[..|text| - 1]) && text == text[..|text| - 1] + [text[|text| - 1]]
    ensures '0' <= text[|text| - 1] <= '9'
  {
    assert text[|text| - 1] in text;
    var front := text[..|text| - 1];
    forall c | c in front
      ensures '0' <= c <= '9'
    {
      assert c in text;
    }
  }

  lemma OneDigit(text: string)
    requires IsNumeral(text) && |text| == 1
    ensures ValueOf(text) == text[0] as int - '0' as int && '0' <= text[0] <= '9'
  {
    assert text[0] in text && text[1..] == "";
  }

  lemma {:induction false} NumeralCounts(text: string)
    requires IsNumeral(text)
    ensures ValueOf(text) >= 0 && (|text| > 1 <==> ValueOf(text) >= 10)
  {
    hide IsNumeral;
    if |text| > 1 {
      var front, last := text[..|text| - 1], text[|text| - 1];
      FrontIsNumeral(text);
      NumeralCounts(front);
      ValueOfMore(front, last);
      if |front| == 1 { NotZero(text); }
    } else {
      SomeDigit(text);
      OneDigit(text);
    }
  }

  lemma SomeDigit(text: string)
    requires IsNumeral(text)
    ensures text != ""
  {
  }

  lemma NotZero(text: string)
    requires IsNumeral(text) && |text| == 2
    ensures ValueOf(text[..1]) > 0
  {
    FrontIsNumeral(text);
    OneDigit(text[..1]);
  }

  /** `Decimal(n)` is the one numeral that stands for n. */
  lemma {:induction false} DecimalIff(text: string, n: nat)
    ensures text == Decimal(n) <==> IsNumeral(text) && ValueOf(text) == n
  {
    hide IsNumeral;
    DecimalMeans(n);
    if IsNumeral(text) && ValueOf(text) == n {
      NumeralCounts(text);
      NumeralEnds(text, n);
      if n >= 10 {
        DecimalIff(text[..|text| - 1], n / 10);
        FrontIsNumeral(text);
        assert text == Decimal(n);
      } else {
        SomeDigit(text);
        assert text == [Digit(n)];
      }
    }
  }

  lemma DigitOf(n: nat)
    requires n < 10
    ensures '0' <= Digit(n) <= '9' && Digit(n) as int - '0' as int == n
  {
  }

  lemma {:induction false} DecimalMeans(n: nat)
    ensures IsNumeral(Decimal(n)) && ValueOf(Decimal(n)) == n && (Decimal(n)[0] == '0' ==> n == 0)
  {
    DigitOf(n % 10);
    if n >= 10 {
      DecimalMeans(n / 10);
      ValueOfMore(Decimal(n / 10), Digit(n % 10));
    } else {
      ValueOfMore("", Digit(n));
      assert "" + [Digit(n)] == Decimal(n);
    }
  }

  lemma NumeralEnds(text: string, n: nat)
    requires IsNumeral(text) && ValueOf(text) == n && (|text| > 1 <==> n >= 10)
    ensures text[|text| - 1] == Digit(n % 10)
    ensures n >= 10 ==> IsNumeral(text[..|text| - 1]) && ValueOf(text[..|text| - 1]) == n / 10
  {
    hide IsNumeral, ValueOf, Digit;
    if |text| > 1 {
      FrontIsNumeral(text);
      var front, last := text[..|text| - 1], text[|text| - 1];
      ValueOfMore(front, last);
      LastOfTen(ValueOf(front), last as int - '0' as int, n);
      DigitIs(last, n % 10);
    } else {
      SomeDigit(text);
      OneDigit(text);
      DigitIs(text[0], n);
    }
  }

  lemma LastOfTen(tens: int, ones: int, n: int)
    requires n == 10 * tens + ones && 0 <= ones < 10
    ensures n / 10 == tens && n % 10 == ones
  {
  }

  lemma DigitIs(c: char, n: nat)
    requires n < 10 && c as int - '0' as int == n
    ensures c == Digit(n)
  {
  }

  /** `key.rsplit("_", 1)[1]` */
  function LastPart(key: string): string {
    if key == "" || key[|key| - 1] == '_' then "" else LastPart(key[..|key| - 1]) + [key[|key| - 1]]
  }

  lemma {:induction false} LastPartOf(head: string, part: string)
    requires '_' !in part && head != "" && head[|head| - 1] == '_'
    ensures LastPart(head + part) == part
  {
    var key := head + part;
    if part == "" {
      assert key == head;
    } else {
      LastPartOf(head, part[..|part| - 1]);
      assert key[..|key| - 1] == head + part[..|part| - 1];
      assert key[|key| - 1] == part[|part| - 1];
    }
  }

  function ChunkKey(number: nat): (key: string)
    ensures IsChunk(key) && LastPart(key) == Decimal(number)
  {
    LastPartOf(PREFIX, Decimal(number));
    PREFIX + Decimal(number)
  }

  /** Python's `int` on text, None where it raises ValueError. */
  type ToInt = string -> Option<int>

  /** It reads ASCII numerals in base ten. */
  ghost predicate ReadsDecimals(toInt: ToInt) {
    forall text | IsNumeral(text) :: toInt(text) == Some(ValueOf(text))
  }

  lemma ReadsBack(toInt: ToInt, n: nat)
    requires ReadsDecimals(toInt)
    ensures toInt(Decimal(n)) == Some(n)
  {
    DecimalIff(Decimal(n), n);
  }

  lemma ChunkKeysDiffer(a: nat, b: nat, toInt: ToInt)
    requires ReadsDecimals(toInt) && ChunkKey(a) == ChunkKey(b)
    ensures a == b
  {
    ReadsBack(toInt, a);
    ReadsBack(toInt, b);
  }

  // ---- reassembly --------------------------------------------------------

  datatype Chunk = Chunk(number: int, value: string)

  /** The chunks of the environment in its order, or None when a key has no number. */
  function ChunksOf(env: Env, toInt: ToInt): Option<seq<Chunk>> {
    if env == [] then Some([])
    else
      var rest := ChunksOf(env[1..], toInt);
      if !IsChunk(env[0].key) then rest
      else
        var number := toInt(LastPart(env[0].key));
        if number.None? || rest.None? then None else Some([Chunk(number.value, env[0].value)] + rest.value)
  }

  predicate TextBefore(a: string, b: string) {
    if b == "" then false else if a == "" then true
    else a[0] < b[0] || (a[0] == b[0] && TextBefore(a[1..], b[1..]))
  }

  /** Tuples compare by number, then by text. */
  predicate Before(a: Chunk, b: Chunk) {
    a.number < b.number || (a.number == b.number && TextBefore(a.value, b.value))
  }

  function Insert(c: Chunk, sorted: seq<Chunk>): (more: seq<Chunk>)
    ensures |more| == |sorted| + 1 && forall x :: x in more <==> x == c || x in sorted
  {
    if sorted == [] then [c]
    else
      assert sorted == [sorted[0]] + sorted[1..];
      if Before(sorted[0], c) then [sorted[0]] + Insert(c, sorted[1..]) else [c] + sorted
  }

  function Sorted(chunks: seq<Chunk>): (sorted: seq<Chunk>)
    ensures |sorted| == |chunks| && forall x :: x in sorted <==> x in chunks
  {
    if chunks == [] then []
    else
      assert chunks == [chunks[0]] + chunks[1..];
      Insert(chunks[0], Sorted(chunks[1..]))
  }

  function Joined(chunks: seq<Chunk>): string {
    if chunks == [] then "" else chunks[0].value + Joined(chunks[1..])
  }

  datatype Reassembly = Text(text: string) | NoChunks | BadKey

  /** The text sent: the chunks sorted and joined. */
  function Reassemble(env: Env, toInt: ToInt): Reassembly {
    match ChunksOf(env, toInt)
    case None => BadKey
    case Some(chunks) => if chunks == [] then NoChunks else Text(Joined(Sorted(chunks)))
  }

  // ---- cutting up --------------------------------------------------------

  /** The text in pieces of `size`, the last one shorter. */
  function Pieces(text: string, size: nat): (pieces: seq<string>)
    requires size > 0
    decreases |text|
  {
    if text == "" then [] else if |text| <= size then [text] else [text[..size]] + Pieces(text[size..], size)
  }

  /** The entries for pieces, the first of them with this number. */
  function Numbered(pieces: seq<string>, from: nat): (env: Env)
    ensures |env| == |pieces|
    ensures forall i | 0 <= i < |pieces| :: env[i] == Entry(ChunkKey(from + i), pieces[i])
  {
    seq(|pieces|, i requires 0 <= i < |pieces| => Entry(ChunkKey(from + i), pieces[i]))
  }

  function Others(env: Env): (others: Env)
    ensures forall e :: e in others <==> e in env && !IsChunk(e.key)
  {
    if env == [] then []
    else
      assert env == [env[0]] + env[1..];
      (if IsChunk(env[0].key) then [] else [env[0]]) + Others(env[1..])
  }

  lemma {:induction false} OthersIsDict(env: Env)
    requires IsDict(env)
    ensures IsDict(Others(env))
  {
    if env != [] {
      OthersIsDict(env[1..]);
      forall e | e in Others(env[1..])
        ensures e.key != env[0].key
      {
        var i :| 0 <= i < |env[1..]| && env[1..][i] == e;
        assert env[i + 1] == e;
      }
    }
  }

  /** The pieces of a text are what its chunks hold: none empty, none longer than `size`, only the last shorter. */
  lemma {:induction false} PiecesFit(text: string, size: nat, i: nat)
    requires size > 0 && i < |Pieces(text, size)|
    ensures 0 < |Pieces(text, size)[i]| <= size
    ensures i + 1 < |Pieces(text, size)| ==> |Pieces(text, size)[i]| == size
    decreases |text|
  {
    if |text| > size && i > 0 { PiecesFit(text[size..], size, i - 1); }
  }

  lemma QuotientUnique(k: int, q: int, r: int, size: int)
    requires 0 <= r < size && k * size == q * size + r
    ensures k == q
  {
    assert k > q ==> (k - q - 1) * size >= 0;
    assert k < q ==> (q - k - 1) * size >= 0;
  }

  lemma Quotient(n: nat, k: nat, size: nat)
    requires size > 0 && n == k * size
    ensures n / size == k
  {
    QuotientUnique(k, n / size, n % size, size);
  }

  /** What is left of the text, and the pieces it still gives. */
  lemma PiecesNext(text: string, size: nat, index: nat)
    requires size > 0 && index < |text|
    ensures var end := if index + size <= |text| then index + size else |text|;
            Pieces(text[index..], size) == [text[index..end]] + if end < |text| then Pieces(text[end..], size) else []
  {
    if |text| <= index + size {
      assert text[index..] == text[index..|text|];
    } else {
      assert text[index..][..size] == text[index..index + size];
      assert text[index..][size..] == text[index + size..];
    }
  }

  /** The rewriting of the environment: the loop that stores the pieces. */
  method Rewrite(env: Env, encoded: string, size: nat, ghost toInt: ToInt) returns (rewritten: Env)
    requires size > 0 && IsDict(env) && ReadsDecimals(toInt)
    ensures IsDict(rewritten)
    ensures rewritten == Others(env) + Numbered(Pieces(encoded, size), 1)
  {
    hide Pieces, Numbered, ChunkKey, Others, Assign, IsDict, CutTo;
    rewritten := Others(env);
    OthersIsDict(env);
    assert Numbered([], 1) == [];
    var index := 0;
    ghost var done: seq<string> := [];
    CutNothing(encoded, size);
    while index < |encoded|
      invariant 0 <= index && CutTo(encoded, size, index, done)
      invariant rewritten == Others(env) + Numbered(done, 1) && IsDict(rewritten)
    {
      var piece := encoded[index..if index + size <= |encoded| then index + size else |encoded|];
      CutNext(encoded, size, index, done);
      StoreNext(env, done, piece, toInt);
      rewritten := Assign(rewritten, ChunkKey(index / size + 1), piece);
      done := done + [piece];
      index := index + size;
    }
    CutAll(encoded, size, index, done);
  }

  /** The pieces stored before the loop looks at `index`. */
  ghost predicate CutTo(text: string, size: nat, index: nat, done: seq<string>)
    requires size > 0
  {
    && (index < |text| ==> index == |done| * size)
    && Pieces(text, size) == done + if index < |text| then Pieces(text[index..], size) else []
  }

  lemma CutNothing(text: string, size: nat)
    requires size > 0
    ensures CutTo(text, size, 0, [])
  {
    assert text[0..] == text;
  }

  lemma CutNext(text: string, size: nat, index: nat, done: seq<string>)
    requires size > 0 && index < |text| && CutTo(text, size, index, done)
    ensures index / size == |done|
    ensures CutTo(text, size, index + size, done + [text[index..if index + size <= |text| then index + size else |text|]])
  {
    hide Pieces;
    Quotient(index, |done|, size);
    PiecesNext(text, size, index);
    assert (|done| + 1) * size == |done| * size + size;
  }

  lemma CutAll(text: string, size: nat, index: nat, done: seq<string>)
    requires size > 0 && index >= |text| && CutTo(text, size, index, done)
    ensures Pieces(text, size) == done
  {
  }

  lemma StoreNext(env: Env, done: seq<string>, piece: string, toInt: ToInt)
    requires ReadsDecimals(toInt) && IsDict(Others(env) + Numbered(done, 1))
    ensures Assign(Others(env) + Numbered(done, 1), ChunkKey(|done| + 1), piece) == Others(env) + Numbered(done + [piece], 1)
    ensures IsDict(Others(env) + Numbered(done + [piece], 1))
  {
    hide Others, Numbered, ChunkKey, Assign, IsDict, ReadsDecimals;
    var before, key := Others(env) + Numbered(done, 1), ChunkKey(|done| + 1);
    forall i | 0 <= i < |before|
      ensures before[i].key != key
    {
      if i < |Others(env)| {
        assert before[i] in Others(env);
      } else if before[i].key == key {
        ChunkKeysDiffer(1 + (i - |Others(env)|), |done| + 1, toInt);
      }
    }
    AssignNew(before, key, piece);
    assert Numbered(done + [piece], 1) == Numbered(done, 1) + [Entry(key, piece)];
    assert before + [Entry(key, piece)] == Others(env) + (Numbered(done, 1) + [Entry(key, piece)]);
  }

  lemma AssignNew(env: Env, key: string, value: string)
    requires IsDict(env) && forall i | 0 <= i < |env| :: env[i].key != key
    ensures Assign(env, key, value) == env + [Entry(key, value)] && IsDict(env + [Entry(key, value)])
  {
  }

  // ---- the round trip ----------------------------------------------------

  predicate Ascending(chunks: seq<Chunk>) {
    forall i, j | 0 <= i < j < |chunks| :: chunks[i].number < chunks[j].number
  }

  predicate NumbersDiffer(chunks: seq<Chunk>) {
    forall i, j | 0 <= i < j < |chunks| :: chunks[i].number != chunks[j].number
  }

  lemma {:induction false} InsertAscends(c: Chunk, sorted: seq<Chunk>)
    requires Ascending(sorted) && forall x | x in sorted :: x.number != c.number
    ensures Ascending(Insert(c, sorted))
  {
    if sorted != [] && Before(sorted[0], c) {
      var rest := sorted[1..];
      InsertAscends(c, rest);
      forall x | x in Insert(c, rest)
        ensures sorted[0].number < x.number
      {
        if x != c {
          var i :| 0 <= i < |rest| && rest[i] == x;
          assert sorted[i + 1] == x;
        }
      }
    }
  }

  lemma {:induction false} SortedAscends(chunks: seq<Chunk>)
    requires NumbersDiffer(chunks)
    ensures Ascending(Sorted(chunks))
  {
    if chunks != [] {
      SortedAscends(chunks[1..]);
      forall x | x in chunks[1..]
        ensures x.number != chunks[0].number
      {
        var i :| 0 <= i < |chunks[1..]| && chunks[1..][i] == x;
        assert chunks[i + 1] == x;
      }
      InsertAscends(chunks[0], Sorted(chunks[1..]));
    }
  }

  lemma {:induction false} AscendingUnique(a: seq<Chunk>, b: seq<Chunk>)
    requires Ascending(a) && Ascending(b) && forall c :: c in a <==> c in b
    ensures a == b
  {
    SameEmptiness(a, b);
    if a != [] {
      LeastFirst(a, b);
      LeastFirst(b, a);
      RestsAgree(a, b);
      RestsAgree(b, a);
      AscendingUnique(a[1..], b[1..]);
      assert a == [a[0]] + a[1..] && b == [b[0]] + b[1..];
    }
  }

  lemma SameEmptiness(a: seq<Chunk>, b: seq<Chunk>)
    requires forall c :: c in a <==> c in b
    ensures a == [] <==> b == []
  {
    if a != [] { assert a[0] in a; }
    if b != [] { assert b[0] in b; }
  }

  lemma LeastFirst(a: seq<Chunk>, b: seq<Chunk>)
    requires a != [] && b != [] && Ascending(a) && Ascending(b) && forall c :: c in a <==> c in b
    ensures a[0] == b[0]
  {
    assert a[0] in a && b[0] in b;
    var i :| 0 <= i < |b| && b[i] == a[0];
    var j :| 0 <= j < |a| && a[j] == b[0];
  }

  lemma RestsAgree(a: seq<Chunk>, b: seq<Chunk>)
    requires a != [] && b != [] && Ascending(a) && a[0] == b[0] && forall c | c in a :: c in b
    ensures forall c | c in a[1..] :: c in b[1..]
  {
    forall c | c in a[1..]
      ensures c in b[1..]
    {
      var i :| 0 <= i < |a[1..]| && a[1..][i] == c;
      assert a[i + 1] == c && a[i + 1] in a && a[0].number < a[i + 1].number;
      assert b == [b[0]] + b[1..];
    }
  }

  /** The chunks that pieces are stored as. */
  function Targets(pieces: seq<string>, from: nat): (chunks: seq<Chunk>)
    ensures |chunks| == |pieces| && forall i | 0 <= i < |pieces| :: chunks[i] == Chunk(from + i, pieces[i])
  {
    seq(|pieces|, i requires 0 <= i < |pieces| => Chunk(from + i, pieces[i]))
  }

  lemma {:induction false} PiecesJoin(text: string, size: nat, from: nat)
    requires size > 0
    ensures Joined(Targets(Pieces(text, size), from)) == text
    decreases |text|
  {
    var pieces := Pieces(text, size);
    if text != "" {
      var targets := Targets(pieces, from);
      var rest := if |text| <= size then "" else text[size..];
      assert pieces[1..] == Pieces(rest, size);
      PiecesJoin(rest, size, from + 1);
      assert targets[1..] == Targets(pieces[1..], from + 1);
      assert text == pieces[0] + rest;
    }
  }

  /** Every chunk entry is stored under a key this module writes. */
  ghost predicate WellKeyed(env: Env) {
    forall e | e in env && IsChunk(e.key) :: exists n: nat :: e.key == ChunkKey(n)
  }

  lemma {:induction false} ChunksListed(env: Env, toInt: ToInt)
    requires ReadsDecimals(toInt) && WellKeyed(env) && IsDict(env)
    ensures ChunksOf(env, toInt).Some? && NumbersDiffer(ChunksOf(env, toInt).value)
    ensures Lists(ChunksOf(env, toInt).value, env)
  {
    hide ChunkKey, NumbersDiffer, IsDict, ReadsDecimals, LastPart, IsChunk;
    if env == [] {
      NothingListed(toInt);
    } else {
      var first, rest := env[0], env[1..];
      assert env == [first] + rest;
      DictRest(first, rest);
      ChunksListed(rest, toInt);
      if IsChunk(first.key) {
        assert first in env;
        var n: nat :| first.key == ChunkKey(n);
        var chunks := ChunksOf(rest, toInt).value;
        KeyRead(n, toInt);
        assert ChunksOf(env, toInt) == Some([Chunk(n, first.value)] + chunks);
        ChunkListed(first, n, rest, chunks, toInt);
      } else {
        NotListed(first, rest);
      }
    }
  }

  lemma NothingListed(toInt: ToInt)
    ensures ChunksOf([], toInt) == Some([]) && NumbersDiffer([]) && Lists([], [])
  {
  }

  lemma KeyRead(n: nat, toInt: ToInt)
    requires ReadsDecimals(toInt)
    ensures toInt(LastPart(ChunkKey(n))) == Some(n)
  {
    ReadsBack(toInt, n);
  }

  /** `chunks` are the chunks stored in `env`. */
  ghost predicate Lists(chunks: seq<Chunk>, env: Env) {
    forall c :: c in chunks <==> c.number >= 0 && Entry(ChunkKey(c.number), c.value) in env
  }

  lemma DictRest(first: Entry, rest: Env)
    requires IsDict([first] + rest)
    ensures IsDict(rest) && forall e | e in rest :: e.key != first.key
  {
    var env := [first] + rest;
    forall i, j | 0 <= i < j < |rest|
      ensures rest[i].key != rest[j].key
    {
      assert rest[i] == env[i + 1] && rest[j] == env[j + 1];
    }
    forall e | e in rest
      ensures e.key != first.key
    {
      var i :| 0 <= i < |rest| && rest[i] == e;
      assert env[i + 1] == e && env[0] == first;
    }
  }

  lemma ChunkListed(first: Entry, n: nat, rest: Env, chunks: seq<Chunk>, toInt: ToInt)
    requires ReadsDecimals(toInt) && first.key == ChunkKey(n) && Lists(chunks, rest) && NumbersDiffer(chunks)
    requires forall e | e in rest :: e.key != first.key
    ensures Lists([Chunk(n, first.value)] + chunks, [first] + rest)
    ensures NumbersDiffer([Chunk(n, first.value)] + chunks)
  {
    hide ChunkKey, ReadsDecimals;
    forall c | c in chunks
      ensures c.number != n
    {
      assert Entry(ChunkKey(c.number), c.value) in rest;
    }
    forall c: Chunk | c.number >= 0 && ChunkKey(c.number) == first.key
      ensures c.number == n
    {
      ChunkKeysDiffer(c.number, n, toInt);
    }
  }

  lemma NotListed(first: Entry, rest: Env)
    requires !IsChunk(first.key)
    ensures forall c: Chunk | c.number >= 0 :: Entry(ChunkKey(c.number), c.value) != first
  {
    hide ChunkKey;
    forall c: Chunk | c.number >= 0
      ensures Entry(ChunkKey(c.number), c.value) != first
    {
      assert IsChunk(ChunkKey(c.number));
    }
  }

  /** What the rewriting stores is read back whole, in whatever order the entries come: the numbers decide, not the
      keys' spelling, so the tenth chunk does not slip in after the first. Only the empty text stores nothing. */
  lemma AnyOrderReassembles(env: Env, encoded: string, size: nat, toInt: ToInt, reordered: Env)
    requires size > 0 && ReadsDecimals(toInt) && IsDict(reordered)
    requires forall e :: e in reordered <==> e in Others(env) + Numbered(Pieces(encoded, size), 1)
    ensures Reassemble(reordered, toInt) == if encoded == "" then NoChunks else Text(encoded)
  {
    hide ChunkKey, ChunksOf, Joined, Sorted, Pieces;
    var pieces := Pieces(encoded, size);
    var targets := Targets(pieces, 1);
    forall e | e in reordered && IsChunk(e.key)
      ensures exists n: nat :: e.key == ChunkKey(n)
    {
      StoredIsNumbered(env, pieces, e);
    }
    ChunksListed(reordered, toInt);
    var chunks := ChunksOf(reordered, toInt).value;
    forall c
      ensures c in chunks <==> c in targets
    {
      TargetsStored(env, pieces, toInt, c);
    }
    SortedAscends(chunks);
    AscendingUnique(Sorted(chunks), targets);
    PiecesJoin(encoded, size, 1);
    PiecesEmpty(encoded, size);
  }

  lemma PiecesEmpty(text: string, size: nat)
    requires size > 0
    ensures Pieces(text, size) == [] <==> text == ""
  {
  }

  lemma StoredIsNumbered(env: Env, pieces: seq<string>, e: Entry)
    requires e in Others(env) + Numbered(pieces, 1) && IsChunk(e.key)
    ensures exists i | 0 <= i < |pieces| :: e == Entry(ChunkKey(1 + i), pieces[i])
  {
    hide ChunkKey;
    assert e in Numbered(pieces, 1);
  }

  lemma TargetsStored(env: Env, pieces: seq<string>, toInt: ToInt, c: Chunk)
    requires ReadsDecimals(toInt)
    ensures c in Targets(pieces, 1) <==>
              c.number >= 0 && Entry(ChunkKey(c.number), c.value) in Others(env) + Numbered(pieces, 1)
  {
    hide ChunkKey, Others, ReadsDecimals;
    if c in Targets(pieces, 1) {
      var i :| 0 <= i < |pieces| && c == Targets(pieces, 1)[i];
      assert Numbered(pieces, 1)[i] == Entry(ChunkKey(c.number), c.value);
    }
    if c.number >= 0 && Entry(ChunkKey(c.number), c.value) in Others(env) + Numbered(pieces, 1) {
      assert IsChunk(ChunkKey(c.number));
      StoredIsNumbered(env, pieces, Entry(ChunkKey(c.number), c.value));
      var i :| 0 <= i < |pieces| && Entry(ChunkKey(c.number), c.value) == Entry(ChunkKey(1 + i), pieces[i]);
      ChunkKeysDiffer(c.number, 1 + i, toInt);
      assert Targets(pieces, 1)[i] == c;
    }
  }

  // ---- the comparison with the stored configuration ----------------------

  datatype Json =
    | Int(i: int)
    | Float(x: real)
    | Bool(b: bool)
    | Str(s: string)
    | Null
    | List(items: seq<Json>)
    | Object(fields: map<string, Json>)

  predicate IsNumber(a: Json) { a.Int? || a.Float? || a.Bool? }

  function NumberOf(a: Json): real
    requires IsNumber(a)
  {
    match a
    case Int(i) => i as real
    case Float(x) => x
    case Bool(b) => if b then 1.0 else 0.0
  }

  /** `==` on decoded JSON: numbers and truth values compare by value, lists and dictionaries member by member. */
  predicate PyEqual(a: Json, b: Json)
    decreases a
  {
    if IsNumber(a) && IsNumber(b) then NumberOf(a) == NumberOf(b)
    else
      match a
      case List(items) =>
        b.List? && |items| == |b.items| && forall i | 0 <= i < |items| :: PyEqual(items[i], b.items[i])
      case Object(fields) =>
        b.Object? && fields.Keys == b.fields.Keys && forall k | k in fields && k in b.fields :: PyEqual(fields[k], b.fields[k])
      case _ => a == b
  }

  predicate SameType(a: Json, b: Json) {
    && (a.Int? <==> b.Int?) && (a.Float? <==> b.Float?) && (a.Bool? <==> b.Bool?) && (a.Str? <==> b.Str?)
    && (a.List? <==> b.List?) && (a.Object? <==> b.Object?)
  }

  /** A field counts as unchanged: of the same type, which only looks at the outside, and equal. */
  predicate Unchanged(a: Json, b: Json) { SameType(a, b) && PyEqual(a, b) }

  /** The value with every number in it, truth values included, as a float. */
  function Blurred(a: Json): Json
    decreases a
  {
    if IsNumber(a) then Float(NumberOf(a))
    else
      match a
      case List(items) => List(seq(|items|, i requires 0 <= i < |items| => Blurred(items[i])))
      case Object(fields) => Object(map k | k in fields :: Blurred(fields[k]))
      case _ => a
  }

  /** The comparison cannot see the kinds of numbers, and nothing else escapes it. */
  lemma {:induction false} EqualIffBlurred(a: Json, b: Json)
    ensures PyEqual(a, b) <==> Blurred(a) == Blurred(b)
    decreases a
  {
    if a.List? && b.List? && |a.items| == |b.items| {
      var x, y := Blurred(a).items, Blurred(b).items;
      forall i | 0 <= i < |a.items|
        ensures PyEqual(a.items[i], b.items[i]) <==> x[i] == y[i]
      {
        EqualIffBlurred(a.items[i], b.items[i]);
      }
      assert x == y <==> forall i | 0 <= i < |a.items| :: x[i] == y[i];
    } else if a.Object? && b.Object? {
      var x, y := Blurred(a).fields, Blurred(b).fields;
      assert x.Keys == a.fields.Keys && y.Keys == b.fields.Keys;
      if a.fields.Keys == b.fields.Keys {
        forall k | k in a.fields && k in b.fields
          ensures PyEqual(a.fields[k], b.fields[k]) <==> x[k] == y[k]
        {
          EqualIffBlurred(a.fields[k], b.fields[k]);
        }
        assert x == y <==> forall k | k in a.fields && k in b.fields :: x[k] == y[k];
      }
    }
  }

  /** So a field counts as unchanged exactly when it has the same type and the same value but for the kinds of numbers
      inside; a plain value then is the same. */
  lemma UnchangedIff(a: Json, b: Json)
    ensures Unchanged(a, b) <==> SameType(a, b) && Blurred(a) == Blurred(b)
    ensures !a.List? && !a.Object? ==> (Unchanged(a, b) <==> a == b)
  {
    EqualIffBlurred(a, b);
    if a.Int? && b.Int? { assert NumberOf(a) == NumberOf(b) <==> a.i == b.i; }
  }

  type Config = map<string, Json>

  const ALLOWED_NATIVE := {"navigator.maxTouchPoints", "navigator.doNotTrack", "navigator.globalPrivacyControl",
                           "showcursor", "humanize", "humanize:maxTime"}

  predicate NativeTyped(key: string, value: Json) {
    && (key == "navigator.maxTouchPoints" ==> value.Int? && value.i >= 0)
    && (key == "navigator.doNotTrack" ==> value.Str? && value.s in {"0", "1", "unspecified"})
    && (key in {"navigator.globalPrivacyControl", "showcursor", "humanize"} ==> value.Bool?)
    && (key == "humanize:maxTime" ==> value.Int? || value.Float?)
  }

  datatype Diff = Diff(added: set<string>, removed: set<string>, changed: set<string>)

  datatype Comparison = Compared(normalized: Config, diff: Diff) | Unclassified(keys: set<string>) | BadType

  /** The middle of `normalize_camou_config_env`; the source sorts the three lists. */
  function Compare(sent: Config, disk: Config): Comparison {
    var extras := sent.Keys - disk.Keys;
    var unknown := extras - ALLOWED_NATIVE;
    if unknown != {} then Unclassified(unknown)
    else if exists key | key in extras :: !NativeTyped(key, sent[key]) then BadType
    else
      var normalized := sent - extras;
      var changed := set key | key in normalized.Keys * disk.Keys && !Unchanged(normalized[key], disk[key]);
      Compared(normalized, Diff(normalized.Keys - disk.Keys, disk.Keys - normalized.Keys, changed))
  }

  /** A configuration is compared exactly when every field not stored is a native one of the right type; the keys
      reported otherwise are exactly those that are neither stored nor native. */
  lemma ComparedIff(sent: Config, disk: Config)
    ensures Compare(sent, disk).Compared? <==>
              forall key | key in sent && key !in disk :: key in ALLOWED_NATIVE && NativeTyped(key, sent[key])
    ensures Compare(sent, disk).Unclassified? ==>
              forall key :: key in Compare(sent, disk).keys <==> key in sent && key !in disk && key !in ALLOWED_NATIVE
  {
    hide NativeTyped;
    var unknown := (sent.Keys - disk.Keys) - ALLOWED_NATIVE;
    if unknown != {} {
      var key :| key in unknown;
      assert key in sent && key !in disk && key !in ALLOWED_NATIVE;
    } else {
      forall key | key in sent && key !in disk
        ensures key in ALLOWED_NATIVE
      {
        assert key in unknown || key in ALLOWED_NATIVE;
      }
    }
  }

  /** Every stored field was sent, with its type and its value but for the kinds of numbers inside lists and
      dictionaries. */
  ghost predicate SameConfig(sent: Config, disk: Config) {
    disk.Keys <= sent.Keys && forall key | key in disk && key in sent ::
      SameType(sent[key], disk[key]) && Blurred(sent[key]) == Blurred(disk[key])
  }

  /** What the comparison says about the two configurations: nothing is ever reported added; what was sent comes
      back key by key once the difference is applied; and the difference is empty exactly when everything stored was
      sent unchanged, as far as the comparison can see. */
  lemma DiffIsExact(sent: Config, disk: Config)
    requires Compare(sent, disk).Compared?
    ensures var c := Compare(sent, disk);
            && c.diff.added == {}
            && c.normalized.Keys == disk.Keys - c.diff.removed && c.diff.changed <= c.normalized.Keys
            && (forall key | key in c.normalized ::
                  && c.normalized[key] == sent[key]
                  && (key in c.diff.changed <==>
                        !(SameType(sent[key], disk[key]) && Blurred(sent[key]) == Blurred(disk[key]))))
            && (c.diff == Diff({}, {}, {}) <==> SameConfig(sent, disk))
            && (forall key | key in sent && key !in c.normalized :: key in ALLOWED_NATIVE && NativeTyped(key, sent[key]))
  {
    hide NativeTyped, SameType, Blurred, Unchanged;
    var c := Compare(sent, disk);
    forall key | key in sent && key in disk
      ensures Unchanged(sent[key], disk[key]) <==> SameType(sent[key], disk[key]) && Blurred(sent[key]) == Blurred(disk[key])
    {
      UnchangedIff(sent[key], disk[key]);
    }
    assert forall key | key in sent && key in disk :: key in c.normalized;
    if c.diff == Diff({}, {}, {}) {
      forall key | key in disk
        ensures key in sent && Unchanged(sent[key], disk[key])
      {
        assert key !in c.diff.removed && key !in c.diff.changed;
      }
    }
    forall key | key in sent && key !in c.normalized
      ensures key in ALLOWED_NATIVE
    {
      assert key in (sent.Keys - disk.Keys) - ALLOWED_NATIVE || key in ALLOWED_NATIVE;
    }
  }

  /** What escapes it: a number in a list sent as a truth value. */
  lemma NestedChangeEscapes(key: string)
    ensures var sent, disk := map[key := List([Bool(true)])], map[key := List([Int(1)])];
            && sent != disk && Compare(sent, disk).Compared? && Compare(sent, disk).diff == Diff({}, {}, {})
  {
    var sent, disk := map[key := List([Bool(true)])], map[key := List([Int(1)])];
    assert PyEqual(Bool(true), Int(1));
    assert Unchanged(sent[key], disk[key]);
    assert sent.Keys - disk.Keys == {} && sent - {} == sent;
    assert sent[key].items[0] != disk[key].items[0];
  }
}
