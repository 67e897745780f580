/**
 * src/views.py: the second copy of the greeting and the draft that groups
 * operations by card.
 */
module Views {
  import opened Text
  import opened Dates
  import opened Frames
  import opened Records
  import Utils

  /** The greeting as src/views.py writes it, with its explicit bucket for the night. */
  function GreetingFromTimeToTime(dateObj: DateTime): (message: string)
    requires 0 <= dateObj.hour < 24
    ensures message in {Utils.Night, Utils.Morning, Utils.Afternoon, Utils.Evening}
  {
    var hours := dateObj.hour;
    if 0 <= hours < 6 then Utils.Night
    else if 6 <= hours < 12 then Utils.Morning
    else if 12 <= hours < 18 then Utils.Afternoon
    else Utils.Evening
  }

  /** Both copies greet alike at every hour of the day. */
  lemma GreetingsAgree(dateObj: DateTime)
    requires 0 <= dateObj.hour < 24
    ensures GreetingFromTimeToTime(dateObj) == Utils.GreetingFromTimeToTime(dateObj)
  {
  }

  /** The inner dictionary `{"last_digits": ...}`. */
  datatype CardEntry = CardEntry(lastDigits: string)

  /** The dictionary the draft builds. */
  type CardDraft = map<string, CardEntry>

  const CardKey: string := "card"

  /** `str(operation.get("Номер карты", ""))`. */
  function CardText(op: Operation): (s: string)
    ensures CardNumber !in op ==> s == ""
    ensures CardNumber in op ==> s == Str(op[CardNumber])
  {
    if CardNumber in op then Str(op[CardNumber]) else ""
  }

  /** The card texts of the operations, in order. */
  function CardTexts(ops: seq<Operation>): (numbers: seq<string>)
    ensures |numbers| == |ops| && forall i :: 0 <= i < |ops| ==> numbers[i] == CardText(ops[i])
  {
    seq(|ops|, i requires 0 <= i < |ops| => CardText(ops[i]))
  }

  /**
   * The dictionary after the loop has seen these card texts. The membership
   * test looks the text up among the dictionary's keys, but the only key
   * ever written is the literal "card".
   */
  function DraftAfter(numbers: seq<string>): CardDraft
  {
    if numbers == [] then map[]
    else
      var before := DraftAfter(numbers[..|numbers| - 1]);
      var number := numbers[|numbers| - 1];
      if number !in before then before[CardKey := CardEntry(LastFour(number))] else before
  }

  /**
   * Index of the text whose last digits end up stored: the last one, unless
   * it is the word "card" itself, which the membership test skips (the
   * first is never skipped).
   */
  function LastWriter(numbers: seq<string>): (i: nat)
    requires numbers != []
    ensures i < |numbers|
    ensures i == 0 || numbers[i] != CardKey
    ensures forall j :: i < j < |numbers| ==> numbers[j] == CardKey
  {
    if |numbers| == 1 || numbers[|numbers| - 1] != CardKey then |numbers| - 1
    else LastWriter(numbers[..|numbers| - 1])
  }

  /**
   * `get_last_digit_and_total_spent_and_cashback(operations)`: the loop of
   * src/views.py:84-88 over the operations, in order.
   */
  method GetLastDigitAndTotalSpentAndCashback(operations: seq<Operation>) returns (operationsByCard: CardDraft)
    ensures operationsByCard == DraftAfter(CardTexts(operations))
  {
    operationsByCard := map[];
    var numbers := CardTexts(operations);
    var i := 0;
    while i < |operations|
      invariant 0 <= i <= |operations|
      invariant operationsByCard == DraftAfter(numbers[..i])
    {
      var numberCard := CardText(operations[i]);
      DraftStep(numbers, i);
      if numberCard !in operationsByCard {
        operationsByCard := operationsByCard[CardKey := CardEntry(LastFour(numberCard))];
      }
      i := i + 1;
    }
    assert numbers[..i] == numbers;
  }

  /** One more turn of the loop. */
  lemma DraftStep(numbers: seq<string>, i: nat)
    requires i < |numbers|
    ensures var before := DraftAfter(numbers[..i]);
            DraftAfter(numbers[..i + 1])
            == if numbers[i] !in before then before[CardKey := CardEntry(LastFour(numbers[i]))] else before
  {
    assert numbers[..i + 1][..i] == numbers[..i];
  }

  /**
   * No operations give `{}`; otherwise the dictionary has the single key
   * "card", holding the last four characters of one card text: the last
   * one, unless later ones are the text "card".
   */
  lemma {:induction false} DraftShape(numbers: seq<string>)
    ensures numbers == [] <==> DraftAfter(numbers) == map[]
    ensures numbers != [] ==> DraftAfter(numbers) == map[CardKey := CardEntry(LastFour(numbers[LastWriter(numbers)]))]
  {
    if numbers != [] {
      var init := numbers[..|numbers| - 1];
      var number := numbers[|numbers| - 1];
      DraftShape(init);
      if init == [] {
        assert LastWriter(numbers) == 0;
      } else if number != CardKey {
        assert number !in DraftAfter(init);
      } else {
        assert LastWriter(numbers) == LastWriter(init);
        assert numbers[LastWriter(numbers)] == init[LastWriter(init)];
      }
      assert CardKey in DraftAfter(numbers);
    }
  }

  /**
   * The digits stored for an operation are a suffix of at most four
   * characters of its card text, and empty when it has no card number.
   */
  lemma StoredDigits(op: Operation)
    ensures var digits := LastFour(CardText(op));
            var number := CardText(op);
            |digits| <= 4 && |digits| <= |number| && digits == number[|number| - |digits|..]
            && (CardNumber !in op ==> digits == "")
  {
  }
}
