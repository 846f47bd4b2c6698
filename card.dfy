/**
 * video_card.js: the Russian plural of "phrase", the phrase-count chip and the fields a
 * catalogue card is drawn with.
 */
module Cards {

  import opened Optional
  import opened Numbers
  import opened Html
  import opened Videos

  /** The absolute value `phraseWord` looks at: `Math.abs(Number(n)) || 0`, NaN being `None`. */
  function Magnitude(n: Option<int>): nat
  {
    match n
    case None => 0
    case Some(k) => Abs(k)
  }

  /** `phraseWord(n)`: "фраза" after 1, 21, 31…; "фразы" after 2-4, 22-24…; "фраз" otherwise. */
  function PhraseWord(n: Option<int>): (w: string)
    ensures w == "фраза" <==> Magnitude(n) % 10 == 1 && Magnitude(n) % 100 != 11
    ensures w == "фразы" <==>
      2 <= Magnitude(n) % 10 <= 4 && !(12 <= Magnitude(n) % 100 <= 14)
    ensures w == "фраз" <==>
      !(Magnitude(n) % 10 == 1 && Magnitude(n) % 100 != 11) &&
      !(2 <= Magnitude(n) % 10 <= 4 && !(12 <= Magnitude(n) % 100 <= 14))
  {
    var a := Magnitude(n);
    var mod10, mod100 := a % 10, a % 100;
    if mod10 == 1 && mod100 != 11 then "фраза"
    else if mod10 >= 2 && mod10 <= 4 && !(mod100 >= 12 && mod100 <= 14) then "фразы"
    else "фраз"
  }

  /** The form chosen depends on the last two digits of the magnitude only, and not on the sign. */
  lemma PhraseWordLastTwoDigits(n: int, m: int)
    ensures PhraseWord(Some(-n)) == PhraseWord(Some(n))
    ensures Abs(n) % 100 == Abs(m) % 100 ==> PhraseWord(Some(n)) == PhraseWord(Some(m))
    ensures PhraseWord(Some(n)) == PhraseWord(Some(Abs(n) % 100))
  {
    LastDigitOfLastTwo(Abs(n));
    LastDigitOfLastTwo(Abs(m));
  }

  /** The last digit of the last two digits is the last digit. */
  lemma LastDigitOfLastTwo(a: nat)
    ensures a % 100 % 10 == a % 10
  {
    var q, d := a / 100, a % 100;
    var f, e := d / 10, d % 10;
    assert a == 100 * q + d;
    assert d == 10 * f + e;
    assert a == 10 * (10 * q + f) + e;
    assert a == 10 * (a / 10) + a % 10;
  }

  /** A value that is not a number is read as 0, which takes "фраз". */
  lemma PhraseWordNotANumber()
    ensures PhraseWord(None) == PhraseWord(Some(0)) == "фраз"
  {
  }

  /** `phraseLabel(n)`: the numeral, one space, then the word. */
  function PhraseLabel(n: int): string
  {
    IntToString(n) + " " + PhraseWord(Some(n))
  }

  /** A numeral holds no space. */
  lemma NumeralHasNoSpace(n: int, i: nat)
    requires i < |IntToString(n)|
    ensures IntToString(n)[i] != ' '
  {
    if n >= 0 {
      assert IsDigit(NatToString(n)[i]);
    } else if i > 0 {
      assert IntToString(n)[i] == NatToString(-n)[i - 1];
      assert IsDigit(NatToString(-n)[i - 1]);
    }
  }

  /**
   * The label names the count: it is the count's numeral, a space and the word for that count,
   * and distinct counts never get the same label.
   */
  lemma PhraseLabelNamesCount(a: int, b: int)
    ensures var s := PhraseLabel(a); var k := |IntToString(a)|;
      s[..k] == IntToString(a) && s[k] == ' ' && s[k + 1..] == PhraseWord(Some(a))
    ensures PhraseLabel(a) == PhraseLabel(b) <==> a == b
  {
    var x, y := IntToString(a), IntToString(b);
    if PhraseLabel(a) == PhraseLabel(b) {
      var s := PhraseLabel(a);
      if |x| < |y| {
        assert s[|x|] == ' ';
        assert s[|x|] == y[|x|];
        NumeralHasNoSpace(b, |x|);
      } else if |y| < |x| {
        assert s[|y|] == ' ';
        assert s[|y|] == x[|y|];
        NumeralHasNoSpace(a, |y|);
      }
      assert x == s[..|x|] && y == s[..|y|];
      IntToStringInjective(a, b);
    }
  }

  /** The values `cardHTML` puts into a card's markup. */
  datatype CardView = CardView(
    id: Option<int>,
    title: string,
    chip: string,
    difficulty: int,
    bookmarked: int,
    bookmarkLabel: string,
    pressed: string)

  /** The title shown when an entry has none. */
  const Untitled := "(без названия)"

  /** `cardHTML(v)`: the title escaped, the phrase count defaulting to 0, the level clamped to 1..3. */
  function CardViewOf(c: Card): (w: CardView)
    ensures w.id == c.video.id
    ensures 1 <= w.difficulty <= 3
    ensures c.video.difficulty.Some? && 1 <= c.video.difficulty.value <= 3 ==> w.difficulty == c.video.difficulty.value
    ensures w.bookmarked == (if c.userBookmarked != 0 then 1 else 0)
    ensures w.bookmarkLabel == (if c.userBookmarked != 0 then "Убрать из закладок" else "В закладки")
    ensures w.pressed == (if c.userBookmarked != 0 then "true" else "false")
    ensures c.video.phraseCount.None? ==> w.chip == "0 фраз"
  {
    var title := EscapeHtml(c.video.title.GetOr(Untitled));
    var phrases := c.video.phraseCount.GetOr(0);
    var bookmarked := if c.userBookmarked != 0 then 1 else 0;
    CardView(
      c.video.id,
      title,
      PhraseLabel(phrases),
      Level(c.video.difficulty),
      bookmarked,
      if bookmarked != 0 then "Убрать из закладок" else "В закладки",
      if bookmarked != 0 then "true" else "false")
  }

  /**
   * The card's title is safe to put into the markup, and it decodes to the entry's title, or to
   * the placeholder when the entry has none; the chip names the entry's phrase count.
   */
  lemma CardViewTitleAndChip(c: Card)
    ensures Escaped(CardViewOf(c).title)
    ensures Unescape(CardViewOf(c).title) == c.video.title.GetOr(Untitled)
    ensures forall n :: CardViewOf(c).chip == PhraseLabel(n) <==> n == c.video.phraseCount.GetOr(0)
  {
    EscapeHtmlIsSafe(c.video.title.GetOr(Untitled));
    UnescapeEscapeHtml(c.video.title.GetOr(Untitled));
    forall n
      ensures CardViewOf(c).chip == PhraseLabel(n) <==> n == c.video.phraseCount.GetOr(0)
    {
      PhraseLabelNamesCount(c.video.phraseCount.GetOr(0), n);
    }
  }
}
