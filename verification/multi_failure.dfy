/**
 * react/MultiFailureException.java: an exception that collects failures
 * in the order they are added, and whose message counts and lists them.
 */
module MultiFailure {
  import opened Common

  // ---------------------------------------------------------------------
  // Decimal text of a count, as Java's string concatenation writes an int.
  // ---------------------------------------------------------------------

  predicate IsDigit(c: char) {
    '0' <= c <= '9'
  }

  function Digit(d: nat): (c: char)
    requires d < 10
    ensures IsDigit(c) && c as int - '0' as int == d
  {
    (d + '0' as int) as char
  }

  /** The decimal digits of `n`, with no leading zero. */
  function NatToString(n: nat): (s: string)
    ensures s != [] && forall c :: c in s ==> IsDigit(c)
    ensures |s| > 1 ==> s[0] != '0'
  {
    if n < 10 then [Digit(n)] else NatToString(n / 10) + [Digit(n % 10)]
  }

  /** The number a string of decimal digits denotes. */
  function ParseNat(s: string): nat
    requires forall c :: c in s ==> IsDigit(c)
  {
    if s == [] then 0
    else
      var last := s[|s| - 1];
      assert last in s;
      assert IsDigit(last);
      assert last as int >= '0' as int;
      ParseNat(s[..|s| - 1]) * 10 + (last as int - '0' as int)
  }

  /** The decimal text of any int, with a leading minus sign when negative. */
  function IntToString(i: int): string {
    if i < 0 then "-" + NatToString(-i) else NatToString(i)
  }

  /** Reading the decimal text of `n` back gives `n`: the count in a message is exact. */
  lemma {:induction false} ParseNatToString(n: nat)
    ensures ParseNat(NatToString(n)) == n
  {
    var s := NatToString(n);
    if n >= 10 {
      ParseNatToString(n / 10);
      assert s[..|s| - 1] == NatToString(n / 10);
    }
  }

  // ---------------------------------------------------------------------
  // What `getClass().getName()` and `getMessage()` answer for each failure.
  // ---------------------------------------------------------------------

  function ClassName(e: Exn): (r: string)
    ensures r != []
  {
    match e
    case IllegalState(_) => "java.lang.IllegalStateException"
    case NullPointer(_) => "java.lang.NullPointerException"
    case Unsupported(_) => "java.lang.UnsupportedOperationException"
    case NoSuchElement(_) => "java.util.NoSuchElementException"
    case IndexOutOfBounds(_) => "java.lang.IndexOutOfBoundsException"
    case Runtime(name, _) => if name == [] then "java.lang.Throwable" else name
    case Multi(_) => "react.MultiFailureException"
  }

  /** The separator-joined list: nothing, one entry, or entries with ", " between them. */
  function Join(entries: seq<string>): string {
    if entries == [] then ""
    else if |entries| == 1 then entries[0]
    else entries[0] + ", " + Join(entries[1..])
  }

  /** A failure's own message; that of a multi-failure is its count and its list. */
  function Message(e: Exn): string
    decreases e, 2
  {
    match e
    case IllegalState(m) => m
    case NullPointer(m) => m
    case Unsupported(m) => m
    case NoSuchElement(m) => m
    case IndexOutOfBounds(m) => m
    case Runtime(_, m) => m
    case Multi(fs) => NatToString(|fs|) + " failures: " + Join(Entries(fs, e))
  }

  /** The entry `<class>: <message>` for every failure, in order. */
  function Entries(fs: seq<Exn>, whole: Exn): (r: seq<string>)
    requires whole.Multi? && fs == whole.failures
    ensures |r| == |fs|
    ensures forall i :: 0 <= i < |fs| ==> r[i] == Entry(fs[i])
    decreases whole, 1
  {
    seq(|fs|, i requires 0 <= i < |fs| => Entry(fs[i]))
  }

  /** The text of one failure in the list. */
  function Entry(e: Exn): (r: string)
    ensures r != []
    decreases e, 3
  {
    ClassName(e) + ": " + Message(e)
  }

  /** An entry is the class name, a colon and a space, then the message. */
  lemma EntryText(e: Exn)
    ensures Entry(e) == ClassName(e) + ": " + Message(e)
  {
  }

  /** The message of a collection of failures, built as `getMessage` describes it. */
  function MessageOf(fs: seq<Exn>): (r: string)
    ensures r == Message(Multi(fs))
  {
    NatToString(|fs|) + " failures: " + Join(Entries(fs, Multi(fs)))
  }

  /** Adding one more entry to a non-empty list adds a separator, then the entry. */
  lemma {:induction false} JoinSnoc(entries: seq<string>, x: string)
    ensures Join(entries + [x]) == if entries == [] then x else Join(entries) + ", " + x
    decreases |entries|
  {
    if |entries| > 1 {
      assert (entries + [x])[1..] == entries[1..] + [x];
      JoinSnoc(entries[1..], x);
    } else if |entries| == 1 {
      assert (entries + [x])[1..] == [x];
    }
  }

  /** A joined list of non-empty entries is empty exactly when the list is. */
  lemma JoinEmpty(entries: seq<string>)
    requires forall i :: 0 <= i < |entries| ==> entries[i] != []
    ensures Join(entries) == [] <==> entries == []
  {
    if |entries| > 1 {
      assert |Join(entries)| >= |entries[0]|;
    }
  }

  /** Joining one more of a list of non-empty entries: a separator unless it is the first. */
  lemma JoinStep(entries: seq<string>, i: nat)
    requires i < |entries|
    requires forall j :: 0 <= j < |entries| ==> entries[j] != []
    ensures Join(entries[..i]) == [] <==> i == 0
    ensures Join(entries[..i + 1]) == (if i == 0 then "" else Join(entries[..i]) + ", ") + entries[i]
  {
    TakeOneMore(entries, i);
    JoinSnoc(entries[..i], entries[i]);
    JoinEmpty(entries[..i]);
  }

  class MultiFailureException {
    /** The failures, in the order they were added. */
    var failures: seq<Exn>

    /** A new exception holds no failures. */
    constructor ()
      ensures failures == []
    {
      failures := [];
    }

    /** `addFailure`: appends. */
    method AddFailure(t: Exn)
      modifies this
      ensures failures == old(failures) + [t]
    {
      failures := failures + [t];
    }

    /** `failures()`: the failures in insertion order. */
    function Failures(): (r: seq<Exn>)
      reads this
      ensures |r| == |failures| && forall i :: 0 <= i < |r| ==> r[i] == failures[i]
    {
      failures
    }

    /** The exception as a value, the form in which it is thrown and collected. */
    function AsExn(): (r: Exn)
      reads this
      ensures r.Multi? && r.failures == failures
    {
      Multi(failures)
    }

    /**
     * `getMessage`: walks the failures, appending ", " before every entry
     * but the first, then prefixes the count.
     */
    method GetMessage() returns (m: string)
      ensures m == MessageOf(failures)
    {
      var entries := Entries(failures, Multi(failures));
      var buf := "";
      var i := 0;
      while i < |failures|
        invariant 0 <= i <= |failures|
        invariant buf == Join(entries[..i])
      {
        var entry := ClassName(failures[i]) + ": " + Message(failures[i]);
        EntryText(failures[i]);
        JoinStep(entries, i);
        if |buf| > 0 {
          buf := buf + ", ";
        }
        buf := buf + entry;
        i := i + 1;
      }
      assert entries[..i] == entries;
      m := NatToString(|failures|) + " failures: " + buf;
    }
  }

  /**
   * The message opens with the number of failures, in decimal, then
   * " failures: "; the list holds one entry per failure, in order.
   */
  lemma MessageShape(fs: seq<Exn>)
    ensures var n := NatToString(|fs|);
      && MessageOf(fs) == n + " failures: " + Join(Entries(fs, Multi(fs)))
      && ParseNat(n) == |fs|
  {
    ParseNatToString(|fs|);
  }

  /** The counts of the small messages below. */
  lemma SmallCounts()
    ensures NatToString(0) == "0" && NatToString(1) == "1" && NatToString(2) == "2"
  {
  }

  /** With no failures the message is the bare count; with one it is that failure's entry. */
  lemma MessageSmall(fs: seq<Exn>)
    ensures fs == [] ==> MessageOf(fs) == "0 failures: "
    ensures |fs| == 1 ==> MessageOf(fs) == "1 failures: " + Entry(fs[0])
  {
    SmallCounts();
    var es := Entries(fs, Multi(fs));
    var prefix := NatToString(|fs|) + " failures: ";
    assert MessageOf(fs) == prefix + Join(es);
    if fs == [] {
      assert prefix == "0 failures: ";
      assert Join(es) == "";
    } else if |fs| == 1 {
      assert prefix == "1 failures: ";
      assert Join(es) == Entry(fs[0]);
    }
  }

  /** The entry of an exception of class `name` with message `m`. */
  lemma RuntimeEntry(name: string, m: string)
    requires name != []
    ensures Entry(Runtime(name, m)) == name + ": " + m
  {
  }

  /** The message of two failures lists both entries, in order. */
  lemma TwoEntries(fs: seq<Exn>)
    requires |fs| == 2
    ensures MessageOf(fs) == "2 failures: " + Entry(fs[0]) + ", " + Entry(fs[1])
  {
    SmallCounts();
    var es := Entries(fs, Multi(fs));
    JoinTwo(es);
    var e0, e1 := Entry(fs[0]), Entry(fs[1]);
    assert es[0] == e0 && es[1] == e1;
    var prefix := NatToString(|fs|) + " failures: ";
    assert prefix == "2 failures: ";
    assert MessageOf(fs) == prefix + (e0 + ", " + e1);
    Regroup(prefix, e0, e1);
  }

  /** A list of two entries joins to the first, the separator, then the second. */
  lemma JoinTwo(es: seq<string>)
    requires |es| == 2
    ensures Join(es) == es[0] + ", " + es[1]
  {
    assert es[1..] == [es[1]];
  }

  /** A prefix and a two-entry list, grouped as the message builds them. */
  lemma Regroup(prefix: string, a: string, b: string)
    ensures prefix + (a + ", " + b) == prefix + a + ", " + b
  {
  }

  /** Two failures built as `new Exception("Boo 1!")` and `new Exception("Boo 2!")`. */
  lemma TwoFailuresMessage()
    ensures MessageOf([Runtime("java.lang.Exception", "Boo 1!"), Runtime("java.lang.Exception", "Boo 2!")])
         == "2 failures: " + "java.lang.Exception: Boo 1!" + ", " + "java.lang.Exception: Boo 2!"
  {
    var fs := [Runtime("java.lang.Exception", "Boo 1!"), Runtime("java.lang.Exception", "Boo 2!")];
    TwoEntries(fs);
    RuntimeEntry("java.lang.Exception", "Boo 1!");
    RuntimeEntry("java.lang.Exception", "Boo 2!");
    assert "java.lang.Exception" + ": " + "Boo 1!" == "java.lang.Exception: Boo 1!";
    assert "java.lang.Exception" + ": " + "Boo 2!" == "java.lang.Exception: Boo 2!";
  }
}
