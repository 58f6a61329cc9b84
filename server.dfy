/** The functional-options configuration builder of server.go: the options
    record, the six setters, the fold that applies them in order, default
    resolution, the listen address, and the constructor New. */
module Server {
  import Decimal

  /** A pointer field of the options record: nil (Unset) or pointing at a value. */
  datatype Maybe<T> = Unset | Given(value: T)

  /** Why New refuses to build a server. */
  datatype Error =
    | UndefinedHandler          // "undefined handler"
    | NegativePort              // "port cannot be less than zero"
    | BadAddress(addr: string)  // the address resolver's error for addr

  datatype Result<T> = Success(value: T) | Failure(error: Error)

  /** time.Duration: a count of nanoseconds. */
  type Duration = int

  const Second: Duration := 1_000_000_000
  const DefaultWriteTimeout: Duration := 15 * Second
  const DefaultReadTimeout: Duration := 15 * Second
  const DefaultIdleTimeout: Duration := 60 * Second
  /** net/http's DefaultMaxHeaderBytes, 1 << 20. */
  const DefaultMaxHeaderBytes: int := 1_048_576

  /** The caller's request handler; the builder only stores it. */
  datatype Handler = Handler(name: string)

  /** The options record; every field starts unset. */
  datatype Options = Options(
    host: Maybe<string>,
    port: Maybe<string>,
    maxHeaderBytes: Maybe<int>,
    writeTimeout: Maybe<Duration>,
    readTimeout: Maybe<Duration>,
    idleTimeout: Maybe<Duration>)

  const Zero: Options := Options(Unset, Unset, Unset, Unset, Unset, Unset)

  /** One configuration option, as built by the With... constructors. */
  datatype Option =
    | WithMaxHeaderBytes(bts: int)
    | WithWriteTimeout(timeout: Duration)
    | WithReadTimeout(timeout: Duration)
    | WithIdleTimeout(timeout: Duration)
    | WithHost(name: string)
    | WithPort(port: int)

  /** The settings New hands to the HTTP server it constructs. */
  datatype Settings = Settings(
    addr: string,
    handler: Handler,
    writeTimeout: Duration,
    readTimeout: Duration,
    idleTimeout: Duration,
    maxHeaderBytes: int)

  // ---------------------------------------------------------------------------
  // A uniform view of the six fields, to state frame and last-writer properties.

  datatype Field = Host | Port | MaxHeaderBytes | WriteTimeout | ReadTimeout | IdleTimeout

  datatype FieldValue = Text(text: string) | Number(number: int)

  function AsText(m: Maybe<string>): Maybe<FieldValue> {
    if m.Given? then Given(Text(m.value)) else Unset
  }

  function AsNumber(m: Maybe<int>): Maybe<FieldValue> {
    if m.Given? then Given(Number(m.value)) else Unset
  }

  /** The content of field f of the record. */
  function Get(o: Options, f: Field): Maybe<FieldValue> {
    match f
    case Host => AsText(o.host)
    case Port => AsText(o.port)
    case MaxHeaderBytes => AsNumber(o.maxHeaderBytes)
    case WriteTimeout => AsNumber(o.writeTimeout)
    case ReadTimeout => AsNumber(o.readTimeout)
    case IdleTimeout => AsNumber(o.idleTimeout)
  }

  /** The field an option writes. */
  function Target(opt: Option): Field {
    match opt
    case WithMaxHeaderBytes(_) => MaxHeaderBytes
    case WithWriteTimeout(_) => WriteTimeout
    case WithReadTimeout(_) => ReadTimeout
    case WithIdleTimeout(_) => IdleTimeout
    case WithHost(_) => Host
    case WithPort(_) => Port
  }

  /** The only option that validates its argument refuses a negative port. */
  predicate Rejected(opt: Option) {
    opt.WithPort? && opt.port < 0
  }

  /** What an accepted option writes into its field; a port is written as its decimal text. */
  function Written(opt: Option): FieldValue
    requires !Rejected(opt)
  {
    match opt
    case WithMaxHeaderBytes(b) => Number(b)
    case WithWriteTimeout(t) => Number(t)
    case WithReadTimeout(t) => Number(t)
    case WithIdleTimeout(t) => Number(t)
    case WithHost(h) => Text(h)
    case WithPort(p) => Text(Decimal.Format(p))
  }

  // ---------------------------------------------------------------------------
  // Applying options to the record.

  /** Running one option on the record: fails exactly for a negative port, with
      that error, and otherwise yields the updated record. */
  function ApplyOption(opt: Option, o: Options): (r: Result<Options>)
    ensures r.Failure? <==> Rejected(opt)
    ensures r.Failure? ==> r.error == NegativePort
  {
    match opt
    case WithMaxHeaderBytes(b) => Success(o.(maxHeaderBytes := Given(b)))
    case WithWriteTimeout(t) => Success(o.(writeTimeout := Given(t)))
    case WithReadTimeout(t) => Success(o.(readTimeout := Given(t)))
    case WithIdleTimeout(t) => Success(o.(idleTimeout := Given(t)))
    case WithHost(h) => Success(o.(host := Given(h)))
    case WithPort(p) =>
      if p < 0 then Failure(NegativePort)
      else Success(o.(port := Given(Decimal.Format(p))))
  }

  /** Each accepted option sets its own field to what it writes and leaves the
      other five fields as they were. */
  lemma SetterFrame(opt: Option, o: Options)
    requires !Rejected(opt)
    ensures ApplyOption(opt, o).Success?
    ensures Get(ApplyOption(opt, o).value, Target(opt)) == Given(Written(opt))
    ensures forall f :: f != Target(opt) ==> Get(ApplyOption(opt, o).value, f) == Get(o, f)
  {
  }

  /** A non-negative port is stored as its decimal text, which reads back as the
      port; port 0 is accepted and stored as "0". */
  lemma WithPortStoresDecimal(p: int, o: Options)
    requires p >= 0
    ensures ApplyOption(WithPort(p), o).Success?
    ensures var r := ApplyOption(WithPort(p), o).value;
      r.port.Given? && Decimal.Canonical(r.port.value) && Decimal.Value(r.port.value) == p
      && (p == 0 ==> r.port.value == "0")
  {
    Decimal.ValueOfFormat(p);
    Decimal.FormatCanonical(p);
  }

  /** The options applied in order, stopping at the first one that fails. */
  function ApplyOptions(opts: seq<Option>, o: Options): (r: Result<Options>)
    ensures opts == [] ==> r == Success(o)
    ensures r.Failure? ==> r.error == NegativePort
  {
    if opts == [] then Success(o)
    else match ApplyOption(opts[0], o)
      case Failure(e) => Failure(e)
      case Success(o') => ApplyOptions(opts[1..], o')
  }

  /** Applying a + b is applying a, then b to its result; an error in a means b is never applied. */
  lemma {:induction false} ApplyOptionsAppend(a: seq<Option>, b: seq<Option>, o: Options)
    ensures ApplyOptions(a + b, o) ==
      match ApplyOptions(a, o)
      case Failure(e) => Failure(e)
      case Success(o') => ApplyOptions(b, o')
  {
    if a == [] {
      assert a + b == b;
    } else {
      assert (a + b)[1..] == a[1..] + b;
      match ApplyOption(a[0], o)
      case Failure(_) =>
      case Success(o') => ApplyOptionsAppend(a[1..], b, o');
    }
  }

  /** Applying options fails exactly when one of them is a negative port, and the error is NegativePort. */
  lemma {:induction false} ApplyOptionsFailsIff(opts: seq<Option>, o: Options)
    ensures ApplyOptions(opts, o).Failure? <==> exists i :: 0 <= i < |opts| && Rejected(opts[i])
    ensures ApplyOptions(opts, o).Failure? ==> ApplyOptions(opts, o).error == NegativePort
  {
    if opts != [] {
      match ApplyOption(opts[0], o)
      case Failure(_) =>
        assert Rejected(opts[0]);
      case Success(o') =>
        ApplyOptionsFailsIff(opts[1..], o');
        if exists i :: 0 <= i < |opts| && Rejected(opts[i]) {
          var i :| 0 <= i < |opts| && Rejected(opts[i]);
          assert i != 0;
          assert Rejected(opts[1..][i - 1]);
        }
        if exists j :: 0 <= j < |opts[1..]| && Rejected(opts[1..][j]) {
          var j :| 0 <= j < |opts[1..]| && Rejected(opts[1..][j]);
          assert Rejected(opts[j + 1]);
        }
    }
  }

  /** Once a rejected option is reached, whatever follows it does not change the outcome. */
  lemma ShortCircuit(a: seq<Option>, bad: Option, rest: seq<Option>, o: Options)
    requires Rejected(bad)
    ensures ApplyOptions(a + [bad] + rest, o) == ApplyOptions(a + [bad], o) == Failure(NegativePort)
  {
    ApplyOptionsAppend(a + [bad], rest, o);
    ApplyOptionsAppend(a, [bad], o);
    ApplyOptionsFailsIff(a, o);
  }

  /** Reference definition: what the last accepted option aimed at f wrote, if any. */
  function LastWrite(opts: seq<Option>, f: Field): Maybe<FieldValue> {
    if opts == [] then Unset
    else
      var last := opts[|opts| - 1];
      if Target(last) == f && !Rejected(last) then Given(Written(last))
      else LastWrite(opts[..|opts| - 1], f)
  }

  /** Last writer wins: after a successful run every field holds what the last
      option aimed at it wrote, or its initial content when no option aimed at it. */
  lemma {:induction false} LastWriterWins(opts: seq<Option>, o: Options, f: Field)
    requires ApplyOptions(opts, o).Success?
    ensures Get(ApplyOptions(opts, o).value, f) ==
      if LastWrite(opts, f).Given? then LastWrite(opts, f) else Get(o, f)
  {
    if opts != [] {
      var init, last := opts[..|opts| - 1], opts[|opts| - 1];
      assert opts == init + [last];
      ApplyOptionsAppend(init, [last], o);
      var m := ApplyOptions(init, o).value;
      LastWriterWins(init, o, f);
      SetterFrame(last, m);
    }
  }

  // ---------------------------------------------------------------------------
  // Default resolution and the listen address.

  /** The address text "host:port". */
  function Address(host: string, port: string): (a: string)
    ensures |a| == |host| + 1 + |port|
    ensures a[..|host|] == host && a[|host|] == ':' && a[|host| + 1..] == port
  {
    host + ":" + port
  }

  /** Reference inverse of Address: split at the last ':'. */
  function SplitAtLastColon(a: string): Maybe<(string, string)> {
    if a == [] then Unset
    else if a[|a| - 1] == ':' then Given((a[..|a| - 1], ""))
    else match SplitAtLastColon(a[..|a| - 1])
      case Unset => Unset
      case Given((h, p)) => Given((h, p + [a[|a| - 1]]))
  }

  /** When the port text holds no ':', the address splits back into host and port. */
  lemma {:induction false} SplitAddress(host: string, port: string)
    requires ':' !in port
    ensures SplitAtLastColon(Address(host, port)) == Given((host, port))
  {
    var a := Address(host, port);
    if port == [] {
      assert a[..|a| - 1] == host;
    } else {
      var init := port[..|port| - 1];
      assert ':' !in init by {
        forall i | 0 <= i < |init| ensures init[i] != ':' {
          assert init[i] == port[i];
        }
      }
      assert a[..|a| - 1] == Address(host, init);
      SplitAddress(host, init);
      assert init + [port[|port| - 1]] == port;
    }
  }

  function TextOr(m: Maybe<FieldValue>, d: string): string {
    if m.Given? && m.value.Text? then m.value.text else d
  }

  function NumberOr(m: Maybe<FieldValue>, d: int): int {
    if m.Given? && m.value.Number? then m.value.number else d
  }

  /** The listen address of a record: an unset host or port stands for "". */
  function RecordAddress(o: Options): string {
    Address(if o.host.Given? then o.host.value else "",
            if o.port.Given? then o.port.value else "")
  }

  /** The settings for a record, with unset fields resolved to their defaults. */
  function Resolve(o: Options, handler: Handler): (s: Settings)
    ensures s.handler == handler
    ensures s.addr == Address(if o.host.Given? then o.host.value else "", if o.port.Given? then o.port.value else "")
    ensures s.writeTimeout == (if o.writeTimeout.Given? then o.writeTimeout.value else 15 * Second)
    ensures s.readTimeout == (if o.readTimeout.Given? then o.readTimeout.value else 15 * Second)
    ensures s.idleTimeout == (if o.idleTimeout.Given? then o.idleTimeout.value else 60 * Second)
    ensures s.maxHeaderBytes == (if o.maxHeaderBytes.Given? then o.maxHeaderBytes.value else 1_048_576)
  {
    Settings(
      RecordAddress(o),
      handler,
      if o.writeTimeout.Given? then o.writeTimeout.value else DefaultWriteTimeout,
      if o.readTimeout.Given? then o.readTimeout.value else DefaultReadTimeout,
      if o.idleTimeout.Given? then o.idleTimeout.value else DefaultIdleTimeout,
      if o.maxHeaderBytes.Given? then o.maxHeaderBytes.value else DefaultMaxHeaderBytes)
  }

  /** New, as a function of its inputs; resolves says whether an address is a
      valid TCP address. */
  function Build(handler: Maybe<Handler>, opts: seq<Option>, resolves: string -> bool): (r: Result<Settings>)
    ensures r.Failure? ==>
      (r.error == UndefinedHandler || r.error == NegativePort || (r.error.BadAddress? && !resolves(r.error.addr)))
    ensures r.Success? ==> handler == Given(r.value.handler) && resolves(r.value.addr)
  {
    if handler.Unset? then Failure(UndefinedHandler)
    else match ApplyOptions(opts, Zero)
      case Failure(e) => Failure(e)
      case Success(o) =>
        if !resolves(RecordAddress(o)) then Failure(BadAddress(RecordAddress(o)))
        else Success(Resolve(o, handler.value))
  }

  /** The address New listens on, from the options alone. */
  function EffectiveAddress(opts: seq<Option>): string {
    Address(TextOr(LastWrite(opts, Host), ""), TextOr(LastWrite(opts, Port), ""))
  }

  lemma {:induction false} LastWriteText(opts: seq<Option>, f: Field)
    requires f == Host || f == Port
    ensures LastWrite(opts, f).Given? ==> LastWrite(opts, f).value.Text?
  {
    if opts != [] {
      LastWriteText(opts[..|opts| - 1], f);
    }
  }

  lemma {:induction false} LastWriteNumber(opts: seq<Option>, f: Field)
    requires f != Host && f != Port
    ensures LastWrite(opts, f).Given? ==> LastWrite(opts, f).value.Number?
  {
    if opts != [] {
      LastWriteNumber(opts[..|opts| - 1], f);
    }
  }

  /** The settings resolved from the record after a successful run, in terms of
      the last writers: the address joins the last host and port written ("" when
      unset), and every other field is the last value written or its default. */
  lemma {:induction false} ResolveLastWrites(opts: seq<Option>, handler: Handler)
    requires ApplyOptions(opts, Zero).Success?
    ensures Resolve(ApplyOptions(opts, Zero).value, handler) == Settings(
      EffectiveAddress(opts),
      handler,
      NumberOr(LastWrite(opts, WriteTimeout), DefaultWriteTimeout),
      NumberOr(LastWrite(opts, ReadTimeout), DefaultReadTimeout),
      NumberOr(LastWrite(opts, IdleTimeout), DefaultIdleTimeout),
      NumberOr(LastWrite(opts, MaxHeaderBytes), DefaultMaxHeaderBytes))
  {
    LastWriterWins(opts, Zero, Host);
    LastWriterWins(opts, Zero, Port);
    LastWriterWins(opts, Zero, WriteTimeout);
    LastWriterWins(opts, Zero, ReadTimeout);
    LastWriterWins(opts, Zero, IdleTimeout);
    LastWriterWins(opts, Zero, MaxHeaderBytes);
    LastWriteText(opts, Host);
    LastWriteText(opts, Port);
    LastWriteNumber(opts, WriteTimeout);
    LastWriteNumber(opts, ReadTimeout);
    LastWriteNumber(opts, IdleTimeout);
    LastWriteNumber(opts, MaxHeaderBytes);
  }

  /** The outcome of New: a nil handler fails first, whatever the options; then
      a negative port; then an address that does not resolve; otherwise success. */
  lemma BuildOutcome(handler: Maybe<Handler>, opts: seq<Option>, resolves: string -> bool)
    ensures handler.Unset? ==> Build(handler, opts, resolves) == Failure(UndefinedHandler)
    ensures handler.Given? && (exists i :: 0 <= i < |opts| && Rejected(opts[i])) ==>
      Build(handler, opts, resolves) == Failure(NegativePort)
    ensures handler.Given? && (forall i :: 0 <= i < |opts| ==> !Rejected(opts[i])) ==>
      ApplyOptions(opts, Zero).Success? &&
      Build(handler, opts, resolves) ==
        if resolves(EffectiveAddress(opts)) then Success(Resolve(ApplyOptions(opts, Zero).value, handler.value))
        else Failure(BadAddress(EffectiveAddress(opts)))
  {
    ApplyOptionsFailsIff(opts, Zero);
    if handler.Given? && ApplyOptions(opts, Zero).Success? {
      ResolveLastWrites(opts, handler.value);
    }
  }

  /** What a successful New configures: the address joins the last host and the
      last port written ("" when unset), each timeout and the header limit is the
      last value written, unchanged, or else its default. */
  lemma BuildSettings(handler: Maybe<Handler>, opts: seq<Option>, resolves: string -> bool)
    requires Build(handler, opts, resolves).Success?
    ensures var s := Build(handler, opts, resolves).value;
      && handler == Given(s.handler)
      && s.addr == EffectiveAddress(opts)
      && s.writeTimeout == NumberOr(LastWrite(opts, WriteTimeout), DefaultWriteTimeout)
      && s.readTimeout == NumberOr(LastWrite(opts, ReadTimeout), DefaultReadTimeout)
      && s.idleTimeout == NumberOr(LastWrite(opts, IdleTimeout), DefaultIdleTimeout)
      && s.maxHeaderBytes == NumberOr(LastWrite(opts, MaxHeaderBytes), DefaultMaxHeaderBytes)
  {
    ResolveLastWrites(opts, handler.value);
  }

  /** The port part of a successful New's address is "" or the canonical decimal
      text of the last accepted port, and the address splits back into host and port. */
  lemma {:induction false} BuildAddressSplits(handler: Maybe<Handler>, opts: seq<Option>, resolves: string -> bool)
    requires Build(handler, opts, resolves).Success?
    ensures var port := TextOr(LastWrite(opts, Port), "");
      && (port == "" || Decimal.Canonical(port))
      && SplitAtLastColon(Build(handler, opts, resolves).value.addr)
         == Given((TextOr(LastWrite(opts, Host), ""), port))
  {
    BuildSettings(handler, opts, resolves);
    PortIsDecimal(opts);
    var port := TextOr(LastWrite(opts, Port), "");
    SplitAddress(TextOr(LastWrite(opts, Host), ""), port);
  }

  /** The port text of the record is empty or canonical decimal: never holds a ':'. */
  lemma {:induction false} PortIsDecimal(opts: seq<Option>)
    ensures TextOr(LastWrite(opts, Port), "") == "" || Decimal.Canonical(TextOr(LastWrite(opts, Port), ""))
  {
    if opts != [] {
      var last := opts[|opts| - 1];
      if Target(last) == Port && !Rejected(last) {
        Decimal.FormatCanonical(last.port);
      } else {
        PortIsDecimal(opts[..|opts| - 1]);
      }
    }
  }

  // ---------------------------------------------------------------------------
  // The imperative constructor: a mutable record updated by each option in turn.

  /** The options record that New allocates and each option updates through a pointer. */
  class OptionsRecord {
    var host: Maybe<string>
    var port: Maybe<string>
    var maxHeaderBytes: Maybe<int>
    var writeTimeout: Maybe<Duration>
    var readTimeout: Maybe<Duration>
    var idleTimeout: Maybe<Duration>

    /** The record's current contents as a value. */
    function Snapshot(): Options
      reads this
    {
      Options(host, port, maxHeaderBytes, writeTimeout, readTimeout, idleTimeout)
    }

    /** The zero record: every field unset. */
    constructor ()
      ensures Snapshot() == Zero
    {
      host, port, maxHeaderBytes := Unset, Unset, Unset;
      writeTimeout, readTimeout, idleTimeout := Unset, Unset, Unset;
    }

    /** Runs one option on this record; on error the record is left as it was. */
    method Apply(opt: Option) returns (err: Maybe<Error>)
      modifies this
      ensures match ApplyOption(opt, old(Snapshot()))
        case Failure(e) => err == Given(e) && Snapshot() == old(Snapshot())
        case Success(o) => err == Unset && Snapshot() == o
    {
      err := Unset;
      match opt
      case WithMaxHeaderBytes(b) => maxHeaderBytes := Given(b);
      case WithWriteTimeout(t) => writeTimeout := Given(t);
      case WithReadTimeout(t) => readTimeout := Given(t);
      case WithIdleTimeout(t) => idleTimeout := Given(t);
      case WithHost(h) => host := Given(h);
      case WithPort(p) =>
        if p < 0 {
          err := Given(NegativePort);
          return;
        }
        port := Given(Decimal.Format(p));
    }
  }

  /** New: rejects a nil handler, applies the options in order to a fresh record
      stopping at the first error, checks the address, and resolves defaults. */
  method New(handler: Maybe<Handler>, opts: seq<Option>, resolves: string -> bool) returns (r: Result<Settings>)
    ensures r == Build(handler, opts, resolves)
  {
    if handler.Unset? {
      return Failure(UndefinedHandler);
    }
    var opt := new OptionsRecord();
    var i := 0;
    while i < |opts|
      invariant 0 <= i <= |opts|
      invariant ApplyOptions(opts[..i], Zero) == Success(opt.Snapshot())
    {
      var err := opt.Apply(opts[i]);
      ApplyOptionsAppend(opts[..i], [opts[i]], Zero);
      assert opts[..i + 1] == opts[..i] + [opts[i]];
      if err.Given? {
        ApplyOptionsAppend(opts[..i + 1], opts[i + 1..], Zero);
        assert opts == opts[..i + 1] + opts[i + 1..];
        return Failure(err.value);
      }
      i := i + 1;
    }
    assert opts[..i] == opts;

    var host := "";
    if opt.host.Given? {
      host := opt.host.value;
    }
    var port := "";
    if opt.port.Given? {
      port := opt.port.value;
    }
    var addr := Address(host, port);
    if !resolves(addr) {
      return Failure(BadAddress(addr));
    }
    var writeTimeout, readTimeout, idleTimeout;
    if opt.writeTimeout.Unset? {
      writeTimeout := DefaultWriteTimeout;
    } else {
      writeTimeout := opt.writeTimeout.value;
    }
    if opt.readTimeout.Unset? {
      readTimeout := DefaultReadTimeout;
    } else {
      readTimeout := opt.readTimeout.value;
    }
    if opt.idleTimeout.Unset? {
      idleTimeout := DefaultIdleTimeout;
    } else {
      idleTimeout := opt.idleTimeout.value;
    }
    var maxHeaderBytes;
    if opt.maxHeaderBytes.Unset? {
      maxHeaderBytes := DefaultMaxHeaderBytes;
    } else {
      maxHeaderBytes := opt.maxHeaderBytes.value;
    }
    r := Success(Settings(addr, handler.value, writeTimeout, readTimeout, idleTimeout, maxHeaderBytes));
  }
}
