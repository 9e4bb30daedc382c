/** The sample document the conflict generator writes, and the store's view of a persisted one. */
module Documents {
  import opened Wrappers

  /**
   * The properties of a SampleDoc, serialised as "id", "name", "city",
   * "postalcode", "userdefinedid" and "region".
   */
  datatype SampleDoc = SampleDoc(
    id: string,
    name: string,
    city: string,
    postalCode: string,
    userDefinedId: int,
    region: string)

  const SampleName: string := "Scott Guthrie"
  const SampleCity: string := "Redmond"
  /** The partition key value every generated document carries. */
  const SamplePostalCode: string := "98052"

  predicate IsDigit(c: char) { '0' <= c <= '9' }

  predicate AllDigits(s: string) { forall i | 0 <= i < |s| :: IsDigit(s[i]) }

  function DigitChar(d: nat): (c: char)
    requires d < 10
    ensures IsDigit(c) && c as int - '0' as int == d
  {
    ('0' as int + d) as char
  }

  /** Decimal digits of n, most significant first, without leading zeros. */
  function NatToString(n: nat): (s: string)
    ensures 0 < |s| && AllDigits(s)
    ensures n >= 10 ==> s[0] != '0'
    ensures n < 10 <==> |s| == 1
    decreases n
  {
    if n < 10 then [DigitChar(n)] else NatToString(n / 10) + [DigitChar(n % 10)]
  }

  /** Int32.ToString() under the current culture, modelled as the culture-neutral form: a leading '-' for negatives; the culture makes no difference for the ids 0 .. 999 drawn here. */
  function IntToString(n: int): string {
    if n < 0 then "-" + NatToString(-n) else NatToString(n)
  }

  /** The value of a string of decimal digits. */
  function DigitsValue(s: string): nat
    requires AllDigits(s)
    decreases |s|
  {
    if |s| == 0 then 0
    else 10 * DigitsValue(s[..|s| - 1]) + (s[|s| - 1] as int - '0' as int)
  }

  /** Reads back what IntToString writes; None for anything else. */
  function ParseInt(s: string): Option<int> {
    if 1 < |s| && s[0] == '-' && AllDigits(s[1..]) then Some(-(DigitsValue(s[1..]) as int))
    else if 0 < |s| && AllDigits(s) then Some(DigitsValue(s))
    else None
  }

  lemma {:induction false} NatToStringValue(n: nat)
    ensures DigitsValue(NatToString(n)) == n
    decreases n
  {
    if n >= 10 {
      var s := NatToString(n);
      assert s[..|s| - 1] == NatToString(n / 10);
      NatToStringValue(n / 10);
    }
  }

  lemma ParseNegative(digits: string)
    requires 0 < |digits| && AllDigits(digits)
    ensures ParseInt("-" + digits) == Some(-(DigitsValue(digits) as int))
  {
    var s := "-" + digits;
    assert s[1..] == digits;
  }

  lemma ParseNonNegative(digits: string)
    requires 0 < |digits| && AllDigits(digits)
    ensures ParseInt(digits) == Some(DigitsValue(digits) as int)
  {
    assert IsDigit(digits[0]);
  }

  /** The document id is the decimal text of the drawn number, and nothing is lost in it. */
  lemma IntToStringRoundTrip(n: int)
    ensures ParseInt(IntToString(n)) == Some(n)
  {
    if n < 0 {
      var digits := NatToString(-n);
      NatToStringValue(-n);
      ParseNegative(digits);
      assert IntToString(n) == "-" + digits;
    } else {
      var digits := NatToString(n);
      NatToStringValue(n);
      ParseNonNegative(digits);
      assert IntToString(n) == digits;
    }
  }

  /** Two rounds write the same id exactly when they drew the same number. */
  lemma IntToStringInjective(a: int, b: int)
    ensures IntToString(a) == IntToString(b) <==> a == b
  {
    IntToStringRoundTrip(a);
    IntToStringRoundTrip(b);
  }

  /** The document InsertDocument builds for one regional client. */
  function NewSampleDoc(docId: int, userDefinedId: int, region: string): (d: SampleDoc)
    ensures ParseInt(d.id) == Some(docId)
    ensures d.name == SampleName && d.city == SampleCity && d.postalCode == SamplePostalCode
    ensures d.userDefinedId == userDefinedId && d.region == region
  {
    IntToStringRoundTrip(docId);
    SampleDoc(IntToString(docId), SampleName, SampleCity, SamplePostalCode, userDefinedId, region)
  }

  /** A persisted document as the store hands it back: its properties and its metadata. */
  datatype Resource = Resource(body: SampleDoc, eTag: string, selfLink: string)

  /** The SDK's Document object, whose properties the update path changes in place. */
  class Document {
    var body: SampleDoc
    var eTag: string
    var selfLink: string

    function Value(): Resource
      reads this
    {
      Resource(body, eTag, selfLink)
    }

    constructor (r: Resource)
      ensures Value() == r
    {
      body, eTag, selfLink := r.body, r.eTag, r.selfLink;
    }

    /** Document.SetPropertyValue("region", region): only that property changes. */
    method SetRegion(region: string)
      modifies this
      ensures body == old(body).(region := region)
      ensures eTag == old(eTag) && selfLink == old(selfLink)
    {
      body := body.(region := region);
    }
  }
}
