/**
 * The functional-options pattern of config_option.go: a record of three
 * connection-pool settings, filled with defaults and then overwritten by a
 * list of options applied left to right.
 */
module Options {

  /** The three fields of `configOption` an option can target. */
  datatype Field = MaxOpenConns | MaxIdleConns | ConnMaxLifetime

  /**
   * `configOption`. Go's `int` and `time.Duration` are 64-bit; the options
   * only store them, so they are modelled as unbounded integers.
   */
  datatype PoolOptions = PoolOptions(maxOpenConns: int, maxIdleConns: int, connMaxLifetime: int)

  /**
   * `ConfigOption`: one constructor per `With*` builder. Its `apply` method is
   * unexported, so no package other than this one can add a further kind.
   * A nil option has no constructor: the builders never return one.
   */
  datatype ConfigOption =
    | WithMaxOpenConns(maxOpenConns: int)
    | WithMaxIdleConns(maxIdleConns: int)
    | WithConnMaxLifetime(connMaxLifetime: int)

  /** Reads one field of the record. */
  function Get(op: PoolOptions, f: Field): int
  {
    match f
    case MaxOpenConns => op.maxOpenConns
    case MaxIdleConns => op.maxIdleConns
    case ConnMaxLifetime => op.connMaxLifetime
  }

  /** The field an option overwrites. */
  function Target(o: ConfigOption): Field
  {
    match o
    case WithMaxOpenConns(_) => MaxOpenConns
    case WithMaxIdleConns(_) => MaxIdleConns
    case WithConnMaxLifetime(_) => ConnMaxLifetime
  }

  /** The value an option writes. */
  function Value(o: ConfigOption): int
  {
    match o
    case WithMaxOpenConns(n) => n
    case WithMaxIdleConns(n) => n
    case WithConnMaxLifetime(d) => d
  }

  /** `defaultConfigOption`. */
  function DefaultConfigOption(): (r: PoolOptions)
    ensures Get(r, MaxOpenConns) == 150 && Get(r, MaxIdleConns) == 150
    ensures Get(r, ConnMaxLifetime) == 100
  {
    PoolOptions(150, 150, 100)
  }

  /**
   * `configFuncOption.apply`: runs the option's closure on the record. The
   * option writes its value into its own field and leaves the others alone.
   */
  function Apply(o: ConfigOption, op: PoolOptions): (r: PoolOptions)
    ensures Get(r, Target(o)) == Value(o)
    ensures forall f :: f != Target(o) ==> Get(r, f) == Get(op, f)
  {
    match o
    case WithMaxOpenConns(n) => op.(maxOpenConns := n)
    case WithMaxIdleConns(n) => op.(maxIdleConns := n)
    case WithConnMaxLifetime(d) => op.(connMaxLifetime := d)
  }

  /** Two records that agree on every field are equal. */
  lemma FieldsDetermine(a: PoolOptions, b: PoolOptions)
    requires forall f :: Get(a, f) == Get(b, f)
    ensures a == b
  {
    assert Get(a, MaxOpenConns) == Get(b, MaxOpenConns);
    assert Get(a, MaxIdleConns) == Get(b, MaxIdleConns);
    assert Get(a, ConnMaxLifetime) == Get(b, ConnMaxLifetime);
  }

  /**
   * Applies `opts` to `base` from left to right. Every field ends with its
   * value from `base` or with the value of an option that targets it.
   */
  function ApplyAll(base: PoolOptions, opts: seq<ConfigOption>): (r: PoolOptions)
    ensures forall f :: Get(r, f) == Get(base, f) ||
                        exists i :: 0 <= i < |opts| && Target(opts[i]) == f && Get(r, f) == Value(opts[i])
    decreases |opts|
  {
    if opts == [] then base
    else Apply(opts[|opts| - 1], ApplyAll(base, opts[..|opts| - 1]))
  }

  /**
   * What `decodeConfigOpts(opts)` returns: every field holds its default or
   * the value of an option that targets it.
   */
  function Decoded(opts: seq<ConfigOption>): (r: PoolOptions)
    ensures forall f :: Get(r, f) == Get(DefaultConfigOption(), f) ||
                        exists i :: 0 <= i < |opts| && Target(opts[i]) == f && Get(r, f) == Value(opts[i])
  {
    ApplyAll(DefaultConfigOption(), opts)
  }

  /**
   * `decodeConfigOpts`: starts from the defaults and applies each option in
   * turn to the local record.
   */
  method DecodeConfigOpts(opts: seq<ConfigOption>) returns (op: PoolOptions)
    ensures op == Decoded(opts)
  {
    op := DefaultConfigOption();
    var i := 0;
    while i < |opts|
      invariant 0 <= i <= |opts|
      invariant op == ApplyAll(DefaultConfigOption(), opts[..i])
    {
      assert opts[..i + 1][..i] == opts[..i];
      op := Apply(opts[i], op);
      i := i + 1;
    }
    assert opts[..|opts|] == opts;
  }

  /** With no options the record holds exactly the defaults 150, 150 and 100. */
  lemma DecodeEmpty()
    ensures Decoded([]) == PoolOptions(150, 150, 100)
    ensures Decoded([]).maxOpenConns == 150 && Decoded([]).maxIdleConns == 150
    ensures Decoded([]).connMaxLifetime == 100
  {
  }

  /** Applying the options of `a` and then those of `b` is applying `a + b`. */
  lemma {:induction false} ApplyAllAppend(base: PoolOptions, a: seq<ConfigOption>, b: seq<ConfigOption>)
    ensures ApplyAll(base, a + b) == ApplyAll(ApplyAll(base, a), b)
    decreases |b|
  {
    if b == [] {
      assert a + b == a;
    } else {
      var b' := b[..|b| - 1];
      assert (a + b)[..|a + b| - 1] == a + b';
      assert (a + b)[|a + b| - 1] == b[|b| - 1];
      ApplyAllAppend(base, a, b');
    }
  }

  /** A field that no option targets keeps its value from `base`. */
  lemma {:induction false} UntargetedKept(base: PoolOptions, opts: seq<ConfigOption>, f: Field)
    requires forall k :: 0 <= k < |opts| ==> Target(opts[k]) != f
    ensures Get(ApplyAll(base, opts), f) == Get(base, f)
    decreases |opts|
  {
    if opts != [] {
      var init := opts[..|opts| - 1];
      assert forall k :: 0 <= k < |init| ==> init[k] == opts[k];
      UntargetedKept(base, init, f);
    }
  }

  /** A field takes the value of the last option that targets it. */
  lemma {:induction false} LastWriterWins(base: PoolOptions, opts: seq<ConfigOption>, f: Field, j: int)
    requires 0 <= j < |opts| && Target(opts[j]) == f
    requires forall k :: j < k < |opts| ==> Target(opts[k]) != f
    ensures Get(ApplyAll(base, opts), f) == Value(opts[j])
    decreases |opts|
  {
    var init := opts[..|opts| - 1];
    if j < |opts| - 1 {
      assert forall k :: j < k < |init| ==> init[k] == opts[k];
      LastWriterWins(base, init, f, j);
    }
  }

  /**
   * The decoded value of every field: the default when no option targets it,
   * otherwise the value of the last option that does.
   */
  lemma DecodedField(opts: seq<ConfigOption>, f: Field)
    ensures (forall k :: 0 <= k < |opts| ==> Target(opts[k]) != f) ==>
              Get(Decoded(opts), f) == Get(DefaultConfigOption(), f)
    ensures forall j :: 0 <= j < |opts| && Target(opts[j]) == f &&
                        (forall k :: j < k < |opts| ==> Target(opts[k]) != f) ==>
              Get(Decoded(opts), f) == Value(opts[j])
  {
    if forall k :: 0 <= k < |opts| ==> Target(opts[k]) != f {
      UntargetedKept(DefaultConfigOption(), opts, f);
    }
    forall j | 0 <= j < |opts| && Target(opts[j]) == f &&
               (forall k :: j < k < |opts| ==> Target(opts[k]) != f)
      ensures Get(Decoded(opts), f) == Value(opts[j])
    {
      LastWriterWins(DefaultConfigOption(), opts, f, j);
    }
  }

  /** Applying the same option twice in a row is applying it once. */
  lemma ApplyIdempotent(o: ConfigOption, op: PoolOptions)
    ensures Apply(o, Apply(o, op)) == Apply(o, op)
  {
  }

  /**
   * Of two adjacent options on the same field the later one wins: the earlier
   * one can be dropped. With `o1 == o2` this is idempotence in context.
   */
  lemma DecodeShadow(a: seq<ConfigOption>, o1: ConfigOption, o2: ConfigOption, b: seq<ConfigOption>)
    requires Target(o1) == Target(o2)
    ensures Decoded(a + [o1, o2] + b) == Decoded(a + [o2] + b)
  {
    var base := Decoded(a);
    ApplyAllAppend(DefaultConfigOption(), a + [o1, o2], b);
    ApplyAllAppend(DefaultConfigOption(), a + [o2], b);
    ApplyAllAppend(DefaultConfigOption(), a, [o1, o2]);
    ApplyAllAppend(DefaultConfigOption(), a, [o2]);
    assert [o1, o2][..1] == [o1];
    var x := Apply(o2, Apply(o1, base));
    var y := Apply(o2, base);
    FieldsDetermine(x, y);
  }

  /** Options on different fields commute. */
  lemma ApplyCommutes(o1: ConfigOption, o2: ConfigOption, op: PoolOptions)
    requires Target(o1) != Target(o2)
    ensures Apply(o1, Apply(o2, op)) == Apply(o2, Apply(o1, op))
  {
    FieldsDetermine(Apply(o1, Apply(o2, op)), Apply(o2, Apply(o1, op)));
  }

  /**
   * When some option targets a field and all of those that do write the same
   * value, the field ends with that value.
   */
  lemma {:induction false} SingleValueWins(base: PoolOptions, opts: seq<ConfigOption>, f: Field, j: int, v: int)
    requires 0 <= j < |opts| && Target(opts[j]) == f
    requires forall k :: 0 <= k < |opts| && Target(opts[k]) == f ==> Value(opts[k]) == v
    ensures Get(ApplyAll(base, opts), f) == v
    decreases |opts|
  {
    var init := opts[..|opts| - 1];
    if Target(opts[|opts| - 1]) != f {
      assert j < |init| && init[j] == opts[j];
      assert forall k :: 0 <= k < |init| ==> init[k] == opts[k];
      SingleValueWins(base, init, f, j, v);
    }
  }

  /** Pairwise distinct targets. */
  ghost predicate DistinctTargets(opts: seq<ConfigOption>)
  {
    forall i, j :: 0 <= i < j < |opts| ==> Target(opts[i]) != Target(opts[j])
  }

  /**
   * Reordering a list of options whose targets are pairwise distinct does not
   * change the decoded record.
   */
  lemma DecodePermutation(opts: seq<ConfigOption>, opts': seq<ConfigOption>)
    requires DistinctTargets(opts)
    requires multiset(opts) == multiset(opts')
    ensures Decoded(opts) == Decoded(opts')
  {
    forall f ensures Get(Decoded(opts), f) == Get(Decoded(opts'), f) {
      if j :| 0 <= j < |opts| && Target(opts[j]) == f {
        PermutedTargeted(opts, opts', f, j);
      } else {
        PermutedUntargeted(opts, opts', f);
      }
    }
    FieldsDetermine(Decoded(opts), Decoded(opts'));
  }

  /** `DecodePermutation` for a field that an option of `opts` targets. */
  lemma PermutedTargeted(opts: seq<ConfigOption>, opts': seq<ConfigOption>, f: Field, j: int)
    requires DistinctTargets(opts)
    requires multiset(opts) == multiset(opts')
    requires 0 <= j < |opts| && Target(opts[j]) == f
    ensures Get(Decoded(opts), f) == Get(Decoded(opts'), f)
  {
    SingleValueWins(DefaultConfigOption(), opts, f, j, Value(opts[j]));
    assert opts[j] in multiset(opts');
    var j' :| 0 <= j' < |opts'| && opts'[j'] == opts[j];
    forall k | 0 <= k < |opts'| && Target(opts'[k]) == f ensures Value(opts'[k]) == Value(opts[j]) {
      assert opts'[k] in multiset(opts);
      var i :| 0 <= i < |opts| && opts[i] == opts'[k];
      assert i == j;
    }
    SingleValueWins(DefaultConfigOption(), opts', f, j', Value(opts[j]));
  }

  /** `DecodePermutation` for a field that no option of `opts` targets. */
  lemma PermutedUntargeted(opts: seq<ConfigOption>, opts': seq<ConfigOption>, f: Field)
    requires multiset(opts) == multiset(opts')
    requires forall k :: 0 <= k < |opts| ==> Target(opts[k]) != f
    ensures Get(Decoded(opts), f) == Get(Decoded(opts'), f)
  {
    forall k | 0 <= k < |opts'| ensures Target(opts'[k]) != f {
      assert opts'[k] in multiset(opts);
      assert opts'[k] in opts;
    }
    UntargetedKept(DefaultConfigOption(), opts, f);
    UntargetedKept(DefaultConfigOption(), opts', f);
  }

  /**
   * The test with the three pool options in one list: lifetime, then idle,
   * then open connections.
   */
  lemma DecodeAllThree(open: int, idle: int, lifetime: int)
    ensures Decoded([WithConnMaxLifetime(lifetime), WithMaxIdleConns(idle), WithMaxOpenConns(open)])
            == PoolOptions(open, idle, lifetime)
  {
    var opts := [WithConnMaxLifetime(lifetime), WithMaxIdleConns(idle), WithMaxOpenConns(open)];
    var base := DefaultConfigOption();
    assert opts[..2] == [WithConnMaxLifetime(lifetime), WithMaxIdleConns(idle)];
    assert opts[..2][..1] == [WithConnMaxLifetime(lifetime)];
    assert ApplyAll(base, opts[..2][..1]) == Apply(WithConnMaxLifetime(lifetime), ApplyAll(base, []));
    assert ApplyAll(base, opts[..2]) == Apply(WithMaxIdleConns(idle), ApplyAll(base, opts[..2][..1]));
  }
}
