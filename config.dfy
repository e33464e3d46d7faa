/**
 * config.go: the connection configuration built by `NewConfig` and its
 * rendering as a go-sql-driver data source name by `GenDSN`.
 */
module Config {
  import opened Wrappers
  import opened Format
  import Options

  /** `ConnectionConfig`. */
  datatype ConnectionConfig = ConnectionConfig(
    user: string,
    pwd: string,
    host: string,
    port: string,
    dbName: string,
    charset: string,
    parseTime: bool,
    loc: string)

  /** GORM's `logger.LogLevel`, an integer the model only passes through. */
  type LogLevel = int

  /**
   * `Config`. `Connection` is a pointer in Go and may be nil (a zero
   * `Config{}` has none), so it is an `Option` here.
   */
  datatype Config = Config(
    connection: Option<ConnectionConfig>,
    maxOpenConns: int,
    maxIdleConns: int,
    connMaxLifetime: int,
    logLevel: LogLevel)

  /** The pool setting of a config that corresponds to an option field. */
  function PoolField(c: Config, f: Options.Field): int
  {
    match f
    case MaxOpenConns => c.maxOpenConns
    case MaxIdleConns => c.maxIdleConns
    case ConnMaxLifetime => c.connMaxLifetime
  }

  /**
   * `NewConfig`: the six connection strings verbatim, `ParseTime` on and the
   * location "Local" whatever the options, the pool settings decoded from the
   * options, and the log level passed through.
   */
  function NewConfig(user: string, pwd: string, host: string, port: string, dbName: string,
                     charset: string, logLevel: LogLevel, opts: seq<Options.ConfigOption>): (c: Config)
    ensures c.connection.Some?
    ensures var cc := c.connection.value;
            cc.user == user && cc.pwd == pwd && cc.host == host && cc.port == port &&
            cc.dbName == dbName && cc.charset == charset
    ensures c.connection.value.parseTime && c.connection.value.loc == "Local"
    ensures forall f :: PoolField(c, f) == Options.Get(Options.Decoded(opts), f)
    ensures c.logLevel == logLevel
  {
    var option := Options.Decoded(opts);
    Config(
      Some(ConnectionConfig(user, pwd, host, port, dbName, charset, true, "Local")),
      option.maxOpenConns,
      option.maxIdleConns,
      option.connMaxLifetime,
      logLevel)
  }

  /** The format string `GenDSN` hands to `fmt.Sprintf`. */
  const DsnFormat := "%s:%s@tcp(%s:%s)/%s?charset=%s&parseTime=%t&loc=%s"

  /** The operands `GenDSN` hands to `fmt.Sprintf`, in order. */
  function DsnArgs(cc: ConnectionConfig): seq<Arg>
  {
    [Str(cc.user), Str(cc.pwd), Str(cc.host), Str(cc.port), Str(cc.dbName),
     Str(cc.charset), Bool(cc.parseTime), Str(cc.loc)]
  }

  // DsnArgsPieces, DsnFormatPieces, LiteralSuffix and the asserts of
  // GenDSNExample only unfold concatenations of literals for the solver;
  // SprintfConcat and the DsnHead/DsnTail chains carry the DSN proof.

  /** The DSN operands, one at a time. */
  lemma DsnArgsPieces(cc: ConnectionConfig)
    ensures [] + [Str(cc.user)] + [Str(cc.pwd)] + [Str(cc.host)] + [Str(cc.port)] + [Str(cc.dbName)] +
            [Str(cc.charset)] + [Bool(cc.parseTime)] + [Str(cc.loc)] == DsnArgs(cc)
  {
    var a := [] + [Str(cc.user)] + [Str(cc.pwd)] + [Str(cc.host)] + [Str(cc.port)] + [Str(cc.dbName)] +
             [Str(cc.charset)] + [Bool(cc.parseTime)] + [Str(cc.loc)];
    assert |a| == 8;
    assert a[0] == Str(cc.user) && a[1] == Str(cc.pwd) && a[2] == Str(cc.host) && a[3] == Str(cc.port);
    assert a[4] == Str(cc.dbName) && a[5] == Str(cc.charset) && a[6] == Bool(cc.parseTime) && a[7] == Str(cc.loc);
  }

  /** The DSN template split at its verbs. */
  lemma DsnFormatPieces()
    ensures DsnFormat == "%s" + ":" + "%s" + "@tcp(" + "%s" + ":" + "%s" + ")/" + "%s" +
                         "?charset=" + "%s" + "&parseTime=" + "%t" + "&loc=" + "%s"
  {
    assert "%s" + ":" == "%s:";
    assert "%s:" + "%s" == "%s:%s";
    assert "%s:%s" + "@tcp(" == "%s:%s@tcp(";
    assert "%s:%s@tcp(" + "%s" == "%s:%s@tcp(%s";
    assert "%s:%s@tcp(%s" + ":" == "%s:%s@tcp(%s:";
    assert "%s:%s@tcp(%s:" + "%s" == "%s:%s@tcp(%s:%s";
    assert "%s:%s@tcp(%s:%s" + ")/" == "%s:%s@tcp(%s:%s)/";
    assert "%s:%s@tcp(%s:%s)/" + "%s" == "%s:%s@tcp(%s:%s)/%s";
    assert "%s:%s@tcp(%s:%s)/%s" + "?charset=" == "%s:%s@tcp(%s:%s)/%s?charset=";
    assert "%s:%s@tcp(%s:%s)/%s?charset=" + "%s" == "%s:%s@tcp(%s:%s)/%s?charset=%s";
    assert "%s:%s@tcp(%s:%s)/%s?charset=%s" + "&parseTime=" == "%s:%s@tcp(%s:%s)/%s?charset=%s&parseTime=";
    assert "%s:%s@tcp(%s:%s)/%s?charset=%s&parseTime=" + "%t" == "%s:%s@tcp(%s:%s)/%s?charset=%s&parseTime=%t";
    assert "%s:%s@tcp(%s:%s)/%s?charset=%s&parseTime=%t" + "&loc=" == "%s:%s@tcp(%s:%s)/%s?charset=%s&parseTime=%t&loc=";
    assert "%s:%s@tcp(%s:%s)/%s?charset=%s&parseTime=%t&loc=" + "%s" == DsnFormat;
  }

  /**
   * The DSN template, written after any format `pre` that formats `args` to
   * `out`, consumes the DSN operands and adds the fields between the
   * template's literals to `out`.
   */
  lemma DsnAfter(pre: string, args: seq<Arg>, out: string, cc: ConnectionConfig,
                 format: string, operands: seq<Arg>, text: string)
    requires Sprintf(pre, args) == Some(out)
    requires format == pre + "%s" + ":" + "%s" + "@tcp(" + "%s" + ":" + "%s" + ")/" + "%s" +
                       "?charset=" + "%s" + "&parseTime=" + "%t" + "&loc=" + "%s"
    requires operands == args + [Str(cc.user)] + [Str(cc.pwd)] + [Str(cc.host)] + [Str(cc.port)] +
                         [Str(cc.dbName)] + [Str(cc.charset)] + [Bool(cc.parseTime)] + [Str(cc.loc)]
    requires text == out + cc.user + ":" + cc.pwd + "@tcp(" + cc.host + ":" + cc.port + ")/" + cc.dbName +
                     "?charset=" + cc.charset + "&parseTime=" + FormatBool(cc.parseTime) + "&loc=" + cc.loc
    ensures Sprintf(format, operands) == Some(text)
  {
    DsnHead(pre, args, out, cc);
    DsnTail(pre + "%s" + ":" + "%s" + "@tcp(" + "%s" + ":" + "%s" + ")/",
            args + [Str(cc.user)] + [Str(cc.pwd)] + [Str(cc.host)] + [Str(cc.port)],
            out + cc.user + ":" + cc.pwd + "@tcp(" + cc.host + ":" + cc.port + ")/", cc);
  }

  /** The part of the DSN template up to the database name: user, password, host and port. */
  lemma DsnHead(pre: string, args: seq<Arg>, out: string, cc: ConnectionConfig)
    requires Sprintf(pre, args) == Some(out)
    ensures Sprintf(pre + "%s" + ":" + "%s" + "@tcp(" + "%s" + ":" + "%s" + ")/",
                    args + [Str(cc.user)] + [Str(cc.pwd)] + [Str(cc.host)] + [Str(cc.port)]) ==
            Some(out + cc.user + ":" + cc.pwd + "@tcp(" + cc.host + ":" + cc.port + ")/")
  {
    var f, a, s := pre, args, out;
    AppendString(f, a, s, cc.user);
    f, a, s := f + "%s", a + [Str(cc.user)], s + cc.user;
    AppendLiteral(f, a, s, ":");
    f, s := f + ":", s + ":";
    AppendString(f, a, s, cc.pwd);
    f, a, s := f + "%s", a + [Str(cc.pwd)], s + cc.pwd;
    AppendLiteral(f, a, s, "@tcp(");
    f, s := f + "@tcp(", s + "@tcp(";
    AppendString(f, a, s, cc.host);
    f, a, s := f + "%s", a + [Str(cc.host)], s + cc.host;
    AppendLiteral(f, a, s, ":");
    f, s := f + ":", s + ":";
    AppendString(f, a, s, cc.port);
    f, a, s := f + "%s", a + [Str(cc.port)], s + cc.port;
    AppendLiteral(f, a, s, ")/");
  }

  /** The rest of the DSN template: database name, charset, parse-time flag and location. */
  lemma DsnTail(pre: string, args: seq<Arg>, out: string, cc: ConnectionConfig)
    requires Sprintf(pre, args) == Some(out)
    ensures Sprintf(pre + "%s" + "?charset=" + "%s" + "&parseTime=" + "%t" + "&loc=" + "%s",
                    args + [Str(cc.dbName)] + [Str(cc.charset)] + [Bool(cc.parseTime)] + [Str(cc.loc)]) ==
            Some(out + cc.dbName + "?charset=" + cc.charset + "&parseTime=" + FormatBool(cc.parseTime) +
                 "&loc=" + cc.loc)
  {
    var f, a, s := pre, args, out;
    AppendString(f, a, s, cc.dbName);
    f, a, s := f + "%s", a + [Str(cc.dbName)], s + cc.dbName;
    AppendLiteral(f, a, s, "?charset=");
    f, s := f + "?charset=", s + "?charset=";
    AppendString(f, a, s, cc.charset);
    f, a, s := f + "%s", a + [Str(cc.charset)], s + cc.charset;
    AppendLiteral(f, a, s, "&parseTime=");
    f, s := f + "&parseTime=", s + "&parseTime=";
    AppendBool(f, a, s, cc.parseTime);
    f, a, s := f + "%t", a + [Bool(cc.parseTime)], s + FormatBool(cc.parseTime);
    AppendLiteral(f, a, s, "&loc=");
    f, s := f + "&loc=", s + "&loc=";
    AppendString(f, a, s, cc.loc);
  }

  /** Formatting the DSN template gives the fields between the template's literals. */
  lemma DsnExpansion(cc: ConnectionConfig)
    ensures Sprintf(DsnFormat, DsnArgs(cc)) ==
            Some(cc.user + ":" + cc.pwd + "@tcp(" + cc.host + ":" + cc.port + ")/" + cc.dbName +
                 "?charset=" + cc.charset + "&parseTime=" + FormatBool(cc.parseTime) + "&loc=" + cc.loc)
  {
    var e: string := [];
    DsnFormatPieces();
    assert e + "%s" == "%s";
    DsnArgsPieces(cc);
    assert e + cc.user == cc.user;
    DsnAfter(e, [], e, cc, DsnFormat, DsnArgs(cc),
             cc.user + ":" + cc.pwd + "@tcp(" + cc.host + ":" + cc.port + ")/" + cc.dbName +
             "?charset=" + cc.charset + "&parseTime=" + FormatBool(cc.parseTime) + "&loc=" + cc.loc);
  }

  /**
   * `Config.GenDSN`: `user:pwd@tcp(host:port)/db?charset=..&parseTime=..&loc=..`
   * with every field inserted verbatim (no escaping). A nil `Connection`
   * makes Go panic on the dereference; that is `None` here.
   */
  function GenDSN(c: Config): (dsn: Option<string>)
    ensures c.connection.None? ==> dsn.None?
    ensures c.connection.Some? ==> dsn.Some?
    ensures c.connection.Some? ==>
              var cc := c.connection.value;
              dsn.value == cc.user + ":" + cc.pwd + "@tcp(" + cc.host + ":" + cc.port + ")/" +
                           cc.dbName + "?charset=" + cc.charset + "&parseTime=" +
                           FormatBool(cc.parseTime) + "&loc=" + cc.loc
    ensures c.connection.Some? ==>
              var cc := c.connection.value;
              |dsn.value| == |cc.user| + |cc.pwd| + |cc.host| + |cc.port| + |cc.dbName| +
                             |cc.charset| + |cc.loc| + 34 + (if cc.parseTime then 4 else 5)
  {
    match c.connection
    case None => None
    case Some(cc) =>
      DsnExpansion(cc);
      Sprintf(DsnFormat, DsnArgs(cc))
  }

  /** The test case: fields "1" to "6", parse time on, location "Local". */
  lemma GenDSNExample()
    ensures GenDSN(Config(Some(ConnectionConfig("1", "2", "3", "4", "5", "6", true, "Local")), 0, 0, 0, 0))
            == Some("1:2@tcp(3:4)/5?charset=6&parseTime=true&loc=Local")
  {
    assert "1" + ":" == "1:";
    assert "1:" + "2" == "1:2";
    assert "1:2" + "@tcp(" == "1:2@tcp(";
    assert "1:2@tcp(" + "3" == "1:2@tcp(3";
    assert "1:2@tcp(3" + ":" == "1:2@tcp(3:";
    assert "1:2@tcp(3:" + "4" == "1:2@tcp(3:4";
    assert "1:2@tcp(3:4" + ")/" == "1:2@tcp(3:4)/";
    assert "1:2@tcp(3:4)/" + "5" == "1:2@tcp(3:4)/5";
    assert "1:2@tcp(3:4)/5" + "?charset=" == "1:2@tcp(3:4)/5?charset=";
    assert "1:2@tcp(3:4)/5?charset=" + "6" == "1:2@tcp(3:4)/5?charset=6";
    assert "1:2@tcp(3:4)/5?charset=6" + "&parseTime=" == "1:2@tcp(3:4)/5?charset=6&parseTime=";
    assert "1:2@tcp(3:4)/5?charset=6&parseTime=" + "true" == "1:2@tcp(3:4)/5?charset=6&parseTime=true";
    assert "1:2@tcp(3:4)/5?charset=6&parseTime=true" + "&loc=" == "1:2@tcp(3:4)/5?charset=6&parseTime=true&loc=";
    assert "1:2@tcp(3:4)/5?charset=6&parseTime=true&loc=" + "Local" == "1:2@tcp(3:4)/5?charset=6&parseTime=true&loc=Local";
  }

  /** Every DSN of a config built by `NewConfig` ends in "&parseTime=true&loc=Local". */
  lemma NewConfigDsnSuffix(user: string, pwd: string, host: string, port: string, dbName: string,
                           charset: string, logLevel: LogLevel, opts: seq<Options.ConfigOption>)
    ensures var dsn := GenDSN(NewConfig(user, pwd, host, port, dbName, charset, logLevel, opts));
            dsn.Some? && |dsn.value| >= 25 &&
            dsn.value[|dsn.value| - 25..] == "&parseTime=true&loc=Local"
  {
    var dsn := GenDSN(NewConfig(user, pwd, host, port, dbName, charset, logLevel, opts)).value;
    var head := user + ":" + pwd + "@tcp(" + host + ":" + port + ")/" + dbName + "?charset=" + charset;
    assert dsn == head + "&parseTime=" + FormatBool(true) + "&loc=" + "Local";
    assert FormatBool(true) == "true";
    LiteralSuffix(head);
    assert dsn == head + "&parseTime=true&loc=Local";
  }

  lemma LiteralSuffix(head: string)
    ensures head + "&parseTime=" + "true" + "&loc=" + "Local" == head + "&parseTime=true&loc=Local"
  {
    assert "&parseTime=" + "true" == "&parseTime=true";
    assert "&parseTime=true" + "&loc=" == "&parseTime=true&loc=";
    assert "&parseTime=true&loc=" + "Local" == "&parseTime=true&loc=Local";
    assert head + "&parseTime=" + "true" == head + "&parseTime=true";
    assert head + "&parseTime=true" + "&loc=" == head + "&parseTime=true&loc=";
  }

  /** The DSN of a config built by `NewConfig` depends on neither the log level nor the options. */
  lemma NewConfigDsnIgnoresOptions(user: string, pwd: string, host: string, port: string, dbName: string,
                                   charset: string, l1: LogLevel, o1: seq<Options.ConfigOption>,
                                   l2: LogLevel, o2: seq<Options.ConfigOption>)
    ensures GenDSN(NewConfig(user, pwd, host, port, dbName, charset, l1, o1)) ==
            GenDSN(NewConfig(user, pwd, host, port, dbName, charset, l2, o2))
  {
  }

  /** Without options the pool settings are the defaults 150, 150 and 100. */
  lemma NewConfigDefaults(user: string, pwd: string, host: string, port: string, dbName: string,
                          charset: string, logLevel: LogLevel)
    ensures var c := NewConfig(user, pwd, host, port, dbName, charset, logLevel, []);
            c.maxOpenConns == 150 && c.maxIdleConns == 150 && c.connMaxLifetime == 100
  {
    Options.DecodeEmpty();
  }
}
