/**
 * Board creation: `generate_user_id`, `generate_board` and the phrase pool they
 * draw from. The random number generator, `std::shuffle` and the clock are
 * parameters: `draws` are the successive values of `dis(gen)` (each in 0..15),
 * `shuffled` is the pool after `shuffle`, and `date` is what `get_date` returned.
 */
module BoardGen {
  import opened Wrappers
  import opened Model
  import Json
  import Text

  const Hex: string := "0123456789abcdef"

  /** `x` positions take a random nibble, `y` takes `8 | (nibble & 3)`. */
  const UuidTemplate: string := "xxxxxxxx-xxxx-4xxx-yxxx-xxxxxxxxxxxx"

  /** How many nibbles one identifier consumes: one per `x` or `y` in the template. */
  const UuidDraws: nat := 31

  predicate ValidDraws(draws: seq<int>)
  {
    |draws| == UuidDraws && forall i :: 0 <= i < |draws| ==> 0 <= draws[i] < 16
  }

  predicate IsLowerHex(c: char)
  {
    '0' <= c <= '9' || 'a' <= c <= 'f'
  }

  /** A version-4 identifier as the server writes it. */
  predicate IsUuid(s: string)
  {
    && |s| == 36
    && s[8] == '-' && s[13] == '-' && s[18] == '-' && s[23] == '-'
    && s[14] == '4'
    && s[19] in "89ab"
    && forall p :: 0 <= p < 36 && p !in {8, 13, 14, 18, 19, 23} ==> IsLowerHex(s[p])
  }

  /** The number of `x`/`y` template positions before position `p`: the draws consumed so far. */
  function Slot(p: nat): nat
  {
    if p <= 8 then p
    else if p <= 13 then p - 1
    else if p == 14 then p - 2
    else if p <= 18 then p - 3
    else if p <= 23 then p - 4
    else p - 5
  }

  /** The template position that consumes draw `s`. */
  function SlotPosition(s: nat): nat
  {
    if s < 8 then s
    else if s < 12 then s + 1
    else if s < 15 then s + 3
    else if s == 15 then 19
    else if s < 19 then s + 4
    else s + 5
  }

  lemma TemplateFacts()
    ensures |UuidTemplate| == 36
    ensures forall p :: 0 <= p < 36 ==> Slot(p + 1) == Slot(p) + (if UuidTemplate[p] in "xy" then 1 else 0)
    ensures forall p :: 0 <= p < 36 && UuidTemplate[p] in "xy" ==> Slot(p) < UuidDraws
    ensures forall s :: 0 <= s < UuidDraws ==> SlotPosition(s) < 36 && Slot(SlotPosition(s)) == s
    ensures forall s :: 0 <= s < UuidDraws ==> UuidTemplate[SlotPosition(s)] == (if s == 15 then 'y' else 'x')
  {
    forall p | 0 <= p < 36
      ensures Slot(p + 1) == Slot(p) + (if UuidTemplate[p] in "xy" then 1 else 0)
    {
      TemplateSlotStep(p);
    }
    forall s | 0 <= s < UuidDraws
      ensures SlotPosition(s) < 36 && Slot(SlotPosition(s)) == s
      ensures UuidTemplate[SlotPosition(s)] == (if s == 15 then 'y' else 'x')
    {
      TemplateSlotPosition(s);
    }
  }

  /** One step along the template: a draw is consumed exactly at `x` and `y`. */
  lemma TemplateSlotStep(p: nat)
    requires p < 36
    ensures Slot(p + 1) == Slot(p) + (if UuidTemplate[p] in "xy" then 1 else 0)
  {
    assert UuidTemplate[p] in "xy" <==> p != 8 && p != 13 && p != 14 && p != 18 && p != 23;
  }

  /** The template character at each position. */
  lemma TemplateAt(p: nat)
    requires p < 36
    ensures |UuidTemplate| == 36
    ensures UuidTemplate[p] ==
      if p == 8 || p == 13 || p == 18 || p == 23 then '-'
      else if p == 14 then '4'
      else if p == 19 then 'y'
      else 'x'
  {
  }

  /** A position that takes a draw takes one of the 31. */
  lemma TemplateSlotInRange(p: nat)
    requires p < 36 && UuidTemplate[p] in "xy"
    ensures Slot(p) < UuidDraws
  {
  }

  /** Draw `s` is consumed at position `SlotPosition(s)`, which holds `x`, or `y` for draw 15. */
  lemma TemplateSlotPosition(s: nat)
    requires s < UuidDraws
    ensures SlotPosition(s) < 36 && Slot(SlotPosition(s)) == s
    ensures UuidTemplate[SlotPosition(s)] == (if s == 15 then 'y' else 'x')
  {
  }

  /** The character at position `p` of the identifier built from `draws`. */
  function UuidChar(draws: seq<int>, p: nat): char
    requires ValidDraws(draws) && p < 36
  {
    TemplateFacts();
    var t := UuidTemplate[p];
    if t == 'x' then Hex[draws[Slot(p)]]
    else if t == 'y' then Hex[draws[Slot(p)] % 4 + 8]
    else t
  }

  /** The identifier `generate_user_id` returns for these draws. */
  function FormatUuid(draws: seq<int>): (id: string)
    requires ValidDraws(draws)
    ensures IsUuid(id)
  {
    UuidCharsShape(draws);
    seq(36, p requires 0 <= p < 36 => UuidChar(draws, p))
  }

  lemma HexIsLower()
    ensures |Hex| == 16 && forall i :: 0 <= i < 16 ==> IsLowerHex(Hex[i])
    ensures Hex[8] == '8' && Hex[9] == '9' && Hex[10] == 'a' && Hex[11] == 'b'
  {
  }

  /** What each position of the identifier holds: a dash, the version, the variant, or a hex digit. */
  lemma UuidCharShape(draws: seq<int>, p: nat)
    requires ValidDraws(draws) && p < 36
    ensures p == 8 || p == 13 || p == 18 || p == 23 ==> UuidChar(draws, p) == '-'
    ensures p == 14 ==> UuidChar(draws, p) == '4'
    ensures p == 19 ==> UuidChar(draws, p) in "89ab"
    ensures p !in {8, 13, 14, 18, 19, 23} ==> IsLowerHex(UuidChar(draws, p))
  {
    TemplateAt(p);
    HexIsLower();
    var t := UuidTemplate[p];
    if t in "xy" {
      TemplateSlotInRange(p);
    }
    if p == 19 {
      assert t == 'y';
      var n := draws[Slot(p)] % 4 + 8;
      assert 8 <= n < 12;
    } else if p !in {8, 13, 14, 18, 23} {
      assert t == 'x';
    }
  }

  lemma UuidCharsShape(draws: seq<int>)
    requires ValidDraws(draws)
    ensures forall p :: 0 <= p < 36 && p !in {8, 13, 14, 18, 19, 23} ==> IsLowerHex(UuidChar(draws, p))
    ensures UuidChar(draws, 8) == '-' && UuidChar(draws, 13) == '-' && UuidChar(draws, 18) == '-' && UuidChar(draws, 23) == '-'
    ensures UuidChar(draws, 14) == '4' && UuidChar(draws, 19) in "89ab"
  {
    forall p | 0 <= p < 36
      ensures p !in {8, 13, 14, 18, 19, 23} ==> IsLowerHex(UuidChar(draws, p))
    {
      UuidCharShape(draws, p);
    }
    UuidCharShape(draws, 8);
    UuidCharShape(draws, 13);
    UuidCharShape(draws, 14);
    UuidCharShape(draws, 18);
    UuidCharShape(draws, 19);
    UuidCharShape(draws, 23);
  }

  /** `generate_user_id`: fills the template in place, drawing one nibble per `x` or `y`. */
  method GenerateUserId(draws: seq<int>) returns (uuid: string)
    requires ValidDraws(draws)
    ensures uuid == FormatUuid(draws)
    ensures IsUuid(uuid)
  {
    assert |UuidTemplate| == 36;
    uuid := UuidTemplate;
    var next := 0;
    for i := 0 to |uuid|
      invariant |uuid| == 36 && next == Slot(i)
      invariant forall p :: 0 <= p < i ==> uuid[p] == UuidChar(draws, p)
      invariant forall p :: i <= p < 36 ==> uuid[p] == UuidTemplate[p]
    {
      var c := uuid[i];
      FillStep(draws, i, c);
      if c == 'x' {
        uuid := uuid[i := Hex[draws[next]]];
        next := next + 1;
      } else if c == 'y' {
        uuid := uuid[i := Hex[draws[next] % 4 + 8]];
        next := next + 1;
      }
    }
    assert forall p :: 0 <= p < 36 ==> uuid[p] == FormatUuid(draws)[p];
  }

  /** One position of the fill: what it writes and whether it takes a draw. */
  lemma FillStep(draws: seq<int>, i: nat, c: char)
    requires ValidDraws(draws) && i < 36 && c == UuidTemplate[i]
    ensures c == 'x' ==> Slot(i) < UuidDraws && Slot(i + 1) == Slot(i) + 1 && UuidChar(draws, i) == Hex[draws[Slot(i)]]
    ensures c == 'y' ==> Slot(i) < UuidDraws && Slot(i + 1) == Slot(i) + 1 && UuidChar(draws, i) == Hex[draws[Slot(i)] % 4 + 8]
    ensures c != 'x' && c != 'y' ==> Slot(i + 1) == Slot(i) && UuidChar(draws, i) == c
  {
    TemplateSlotStep(i);
    if c == 'x' || c == 'y' {
      TemplateSlotInRange(i);
    }
  }

  lemma HexInjective()
    ensures forall a, b :: 0 <= a < 16 && 0 <= b < 16 && Hex[a] == Hex[b] ==> a == b
  {
  }

  /**
   * Formatting loses nothing but the two bits the variant overwrites: two
   * draw sequences give the same identifier only if they agree on every draw
   * and on the low two bits of the `y` draw.
   */
  lemma FormatUuidInjective(a: seq<int>, b: seq<int>)
    requires ValidDraws(a) && ValidDraws(b) && FormatUuid(a) == FormatUuid(b)
    ensures forall s :: 0 <= s < UuidDraws && s != 15 ==> a[s] == b[s]
    ensures a[15] % 4 == b[15] % 4
  {
    TemplateFacts();
    HexInjective();
    forall s | 0 <= s < UuidDraws
      ensures s != 15 ==> a[s] == b[s]
      ensures s == 15 ==> a[s] % 4 == b[s] % 4
    {
      var p := SlotPosition(s);
      assert FormatUuid(a)[p] == UuidChar(a, p);
      assert FormatUuid(b)[p] == UuidChar(b, p);
    }
  }

  /** Identifiers contain no character `json_escape` would rewrite, so emitting them raw is safe. */
  lemma UuidIsPlain(id: string)
    requires IsUuid(id)
    ensures Json.Escaped(id) == id && Json.Plain(id)
  {
    assert forall p :: 0 <= p < 36 ==> !Json.Special(id[p]) by {
      forall p | 0 <= p < 36
        ensures !Json.Special(id[p])
      {
        if p !in {8, 13, 14, 18, 19, 23} {
          assert IsLowerHex(id[p]);
        }
      }
    }
    Json.EscapedPlain(id);
  }

  /** 25 unmarked squares reading `pool` cyclically. */
  function CyclicSquares(pool: seq<string>): seq<Square>
    requires |pool| > 0
  {
    seq(BoardSize, i requires 0 <= i < BoardSize => Square(pool[i % |pool|], false))
  }

  /** The board `generate_board` returns. */
  function FreshBoard(shuffled: seq<string>, draws: seq<int>, date: string): Board
    requires |shuffled| > 0 && ValidDraws(draws)
  {
    Board(FormatUuid(draws), CyclicSquares(shuffled), date, false)
  }

  /**
   * `generate_board`: a fresh identifier, no win yet, and 25 unmarked squares
   * that read the shuffled pool cyclically.
   */
  method GenerateBoard(phrases: seq<string>, shuffled: seq<string>, draws: seq<int>, date: string)
    returns (board: Board)
    requires |phrases| > 0 && multiset(shuffled) == multiset(phrases) && ValidDraws(draws)
    ensures |shuffled| > 0 && board == FreshBoard(shuffled, draws, date)
    ensures |board.squares| == BoardSize
    ensures forall i :: 0 <= i < BoardSize ==>
      !board.squares[i].marked && board.squares[i].text == shuffled[i % |shuffled|]
    ensures forall i :: 0 <= i < BoardSize ==> board.squares[i].text in phrases
    ensures !board.bingoAchieved && IsUuid(board.id) && board.lastAccessedDate == date
  {
    assert |shuffled| == |phrases| by {
      assert |multiset(shuffled)| == |multiset(phrases)|;
    }
    var id := GenerateUserId(draws);
    var squares: seq<Square> := [];
    for i := 0 to BoardSize
      invariant |squares| == i
      invariant forall t :: 0 <= t < i ==> squares[t] == Square(shuffled[t % |shuffled|], false)
    {
      squares := squares + [Square(shuffled[i % |shuffled|], false)];
    }
    board := Board(id, squares, date, false);
    forall i | 0 <= i < BoardSize
      ensures board.squares[i].text in phrases
    {
      var x := shuffled[i % |shuffled|];
      assert x in multiset(shuffled);
    }
  }

  /** A value occurring at two positions is counted twice by the multiset. */
  lemma {:induction false} TwoPositions<T>(s: seq<T>, i: nat, j: nat)
    requires i < j < |s| && s[i] == s[j]
    ensures multiset(s)[s[i]] >= 2
  {
    assert s == s[..i] + [s[i]] + s[i + 1..j] + [s[j]] + s[j + 1..];
    assert multiset(s) == multiset(s[..i]) + multiset{s[i]} + multiset(s[i + 1..j]) + multiset{s[j]} + multiset(s[j + 1..]);
  }

  /** With at least 25 distinct phrases, no text repeats on a board. */
  lemma DistinctPhrasesNeverRepeat(phrases: seq<string>, shuffled: seq<string>)
    requires multiset(shuffled) == multiset(phrases)
    requires |phrases| >= BoardSize && forall x :: multiset(phrases)[x] <= 1
    ensures |shuffled| > 0
    ensures forall i, j :: 0 <= i < j < BoardSize ==>
      CyclicSquares(shuffled)[i].text != CyclicSquares(shuffled)[j].text
  {
    assert |multiset(shuffled)| == |multiset(phrases)|;
    assert |shuffled| >= BoardSize;
    assert forall x :: multiset(shuffled)[x] <= 1;
    forall i, j | 0 <= i < j < BoardSize
      ensures CyclicSquares(shuffled)[i].text != CyclicSquares(shuffled)[j].text
    {
      CyclicAt(shuffled, i);
      CyclicAt(shuffled, j);
      NoRepeatAt(shuffled, i, j);
    }
  }

  /** While the pool lasts, square `i` holds the pool's `i`-th phrase. */
  lemma CyclicAt(pool: seq<string>, i: nat)
    requires i < |pool| && i < BoardSize
    ensures CyclicSquares(pool)[i].text == pool[i]
  {
    assert i % |pool| == i;
  }

  /** A sequence whose multiset counts every value at most once has no value at two positions. */
  lemma NoRepeatAt<T>(s: seq<T>, i: nat, j: nat)
    requires i < j < |s| && forall x :: multiset(s)[x] <= 1
    ensures s[i] != s[j]
  {
    if s[i] == s[j] {
      TwoPositions(s, i, j);
    }
  }

  /** The pool used when `db/phrases.txt` cannot be opened. */
  const DefaultPhrases: seq<string> := [
    "Item 1", "Item 2", "Item 3", "Item 4", "Item 5", "Item 6", "Item 7", "Item 8",
    "Item 9", "Item 10", "Item 11", "Item 12", "Item 13", "Item 14", "Item 15", "Item 16",
    "Item 17", "Item 18", "Item 19", "Item 20", "Item 21", "Item 22", "Item 23", "Item 24",
    "Item 25"]

  /** The lines of a file that `load_phrases` and `load_blocked_words` keep: the non-empty ones. */
  function NonEmptyLines(lines: seq<string>): (r: seq<string>)
    ensures forall i :: 0 <= i < |r| ==> r[i] != "" && r[i] in lines
    ensures forall l :: l in lines && l != "" ==> l in r
  {
    if lines == [] then []
    else (if lines[0] == "" then [] else [lines[0]]) + NonEmptyLines(lines[1..])
  }

  /** The kept lines of two stretches of a file are those of the first, then those of the second. */
  lemma {:induction false} NonEmptyLinesAppend(a: seq<string>, b: seq<string>)
    ensures NonEmptyLines(a + b) == NonEmptyLines(a) + NonEmptyLines(b)
  {
    if a == [] {
      assert a + b == b;
    } else {
      NonEmptyLinesAppend(a[1..], b);
      var head := if a[0] == "" then [] else [a[0]];
      assert (a + b)[0] == a[0] && (a + b)[1..] == a[1..] + b;
      assert NonEmptyLines(a + b) == head + NonEmptyLines(a[1..] + b);
      assert NonEmptyLines(a) == head + NonEmptyLines(a[1..]);
      Text.ConcatAssoc(head, NonEmptyLines(a[1..]), NonEmptyLines(b));
    }
  }

  /** Every non-empty line is kept as often as the file holds it, and no empty line is. */
  lemma {:induction false} NonEmptyLinesCounts(lines: seq<string>)
    ensures multiset(NonEmptyLines(lines)) == multiset(lines)["" := 0]
  {
    if lines != [] {
      var rest := lines[1..];
      NonEmptyLinesCounts(rest);
      assert lines == [lines[0]] + rest;
      assert multiset(lines) == multiset{lines[0]} + multiset(rest);
      var head := if lines[0] == "" then [] else [lines[0]];
      assert NonEmptyLines(lines) == head + NonEmptyLines(rest);
      assert multiset(NonEmptyLines(lines)) == multiset(head) + multiset(NonEmptyLines(rest));
    }
  }

  /** One line is kept exactly when it is not empty. */
  lemma NonEmptyLine(l: string)
    ensures NonEmptyLines([l]) == if l == "" then [] else [l]
  {
    assert [l][1..] == [];
  }

  /**
   * `load_phrases` as written: the default pool when the file is missing
   * (`None`), otherwise its non-empty lines, which may be none at all.
   */
  function LoadPhrases(file: Option<seq<string>>): seq<string>
  {
    match file
    case None => DefaultPhrases
    case Some(lines) => NonEmptyLines(lines)
  }

  /**
   * A phrase file that exists but holds only blank lines leaves the pool
   * empty, and `generate_board` then takes `i % pool.size()` with a pool size of 0.
   */
  lemma BlankPhraseFileGivesEmptyPool()
    ensures LoadPhrases(Some([])) == []
    ensures LoadPhrases(Some(["", ""])) == []
  {
  }

  /** `load_phrases` with the default pool also used when the file has no phrase. */
  function LoadPhrasesFixed(file: Option<seq<string>>): (r: seq<string>)
    ensures |r| > 0
    ensures forall p :: p in r ==> p != ""
    ensures file.Some? && NonEmptyLines(file.value) != [] ==> r == NonEmptyLines(file.value)
  {
    var loaded := LoadPhrases(file);
    if loaded == [] then DefaultPhrasesNonEmpty(); DefaultPhrases else loaded
  }

  lemma DefaultPhrasesNonEmpty()
    ensures |DefaultPhrases| == 25
    ensures forall p :: p in DefaultPhrases ==> p != ""
  {
    forall i | 0 <= i < |DefaultPhrases|
      ensures |DefaultPhrases[i]| >= 6
    {
    }
  }

  /** `load_blocked_words`: no words when the file is missing, otherwise its non-empty lines. */
  function LoadBlockedWords(file: Option<seq<string>>): (r: seq<string>)
    ensures forall w :: w in r ==> w != ""
    ensures file.None? ==> r == []
    ensures file.Some? ==> r == NonEmptyLines(file.value)
    ensures file.Some? ==> forall w :: w in r <==> w in file.value && w != ""
  {
    match file
    case None => []
    case Some(lines) => NonEmptyLines(lines)
  }
}
