/** The parameter-file configuration as the registration component sees it:
    each parameter name has a list of boolean values, one per entry (entry `l`
    is the value for resolution level `l`). A read asks for one entry number
    and names a default entry number to fall back on. */
module Config {
  import opened Wrappers

  datatype Configuration = Configuration(parameters: map<string, seq<bool>>) {

    /** Entry `entry` of parameter `name`, if the file gives that many values. */
    function Entry(name: string, entry: nat): Option<bool> {
      if name in parameters && entry < |parameters[name]| then Some(parameters[name][entry]) else None
    }

    /** What a read of `name` finds: entry `entryNr` if the file gives it,
        otherwise entry `defaultEntryNr` if the file gives that. */
    function Lookup(name: string, entryNr: nat, defaultEntryNr: nat): Option<bool> {
      if Entry(name, entryNr).Some? then Entry(name, entryNr) else Entry(name, defaultEntryNr)
    }

    /** Reading a parameter into a variable: a value found overwrites
        `current`, otherwise `current` is kept. */
    function ReadParameter(current: bool, name: string, entryNr: nat, defaultEntryNr: nat): bool {
      Lookup(name, entryNr, defaultEntryNr).GetOr(current)
    }

    /** The same configuration with the values of `name` replaced by `values`. */
    function With(name: string, values: seq<bool>): (c: Configuration)
      ensures forall e: nat :: c.Entry(name, e) == if e < |values| then Some(values[e]) else None
      ensures forall n, e: nat :: n != name ==> c.Entry(n, e) == Entry(n, e)
    {
      Configuration(parameters[name := values])
    }
  }

  /** The decimal digit character for `d`. */
  function DigitChar(d: nat): (c: char)
    requires d < 10
    ensures '0' <= c <= '9'
    ensures c as int - '0' as int == d
  {
    ('0' as int + d) as char
  }

  /** The decimal text of `n`, as written by an output string stream. */
  function NatToString(n: nat): (s: string)
    ensures 1 <= |s|
    ensures n < 10 <==> |s| == 1
  {
    if n < 10 then [DigitChar(n)] else NatToString(n / 10) + [DigitChar(n % 10)]
  }

  /** The number a text of decimal digits denotes, most significant digit first. */
  function DecimalValue(s: string): int {
    if s == [] then 0 else DecimalValue(s[..|s| - 1]) * 10 + (s[|s| - 1] as int - '0' as int)
  }

  /** The text of `n` is a decimal numeral for `n`: digits only, no leading
      zero, and it reads back as `n`. */
  lemma {:induction false} NatToStringIsDecimal(n: nat)
    ensures forall k :: 0 <= k < |NatToString(n)| ==> '0' <= NatToString(n)[k] <= '9'
    ensures |NatToString(n)| > 1 ==> NatToString(n)[0] != '0'
    ensures DecimalValue(NatToString(n)) == n
  {
    var s := NatToString(n);
    if n >= 10 {
      var prefix := NatToString(n / 10);
      NatToStringIsDecimal(n / 10);
      assert s == prefix + [DigitChar(n % 10)];
      assert s[..|s| - 1] == prefix;
      assert forall k :: 0 <= k < |prefix| ==> s[k] == prefix[k];
    }
  }

  /** Different numbers have different decimal texts. */
  lemma {:induction false} NatToStringInjective(a: nat, b: nat)
    requires NatToString(a) == NatToString(b)
    ensures a == b
  {
    var s := NatToString(a);
    if a >= 10 && b >= 10 {
      var pa, pb := NatToString(a / 10), NatToString(b / 10);
      assert s == pa + [DigitChar(a % 10)] == pb + [DigitChar(b % 10)];
      assert |pa| == |pb|;
      assert DigitChar(a % 10) == s[|s| - 1] == DigitChar(b % 10);
      assert pa == s[..|s| - 1] == pb;
      NatToStringInjective(a / 10, b / 10);
    } else if a < 10 && b < 10 {
      assert DigitChar(a) == s[0] == DigitChar(b);
    }
  }
}
