# go-ecosystem/mysql, modelled in Dafny

The Go package is a thin layer over GORM and the go-sql-driver MySQL driver. This model covers
what the package itself decides:

- **Pool options** (`config_option.go`). Three `With*` builders each overwrite one field of a
  record whose defaults are 150 open connections, 150 idle connections and a lifetime of 100.
  `decodeConfigOpts` applies them left to right.
- **Configuration and DSN** (`config.go`). `NewConfig` copies six connection strings, forces
  `ParseTime = true` and `Loc = "Local"`, and takes the pool settings from the decoded options.
  `GenDSN` renders the go-sql-driver data source name
  `user:pwd@tcp(host:port)/db?charset=..&parseTime=..&loc=..` through `fmt.Sprintf`.
- **Connection registry** (`mysql.go`). A global map from key to `*gorm.DB`. `RegisterByKey`,
  `DeregisterByKey`, `MockDBByKey` and `Close` update it or close the pools it holds. The
  variants without `ByKey` use the key `"default"`.

Files:

- `wrappers.dfy`: `Option`, which stands for a nil pointer or a missing map entry.
- `options.dfy`: module `Options`.
- `format.dfy`: module `Format`, the part of `fmt.Sprintf` the DSN template uses (literal
  text, `%s` and `%t`), plus `%%`.
- `config.dfy`: module `Config`.
- `registry.dfy`: module `Registry`. Class `Container` holds the global map.

The GORM, driver and mock calls are parameters:

- `open(dsn)` is the result of `gorm.Open` on that DSN; `None` means it failed.
- `poolOk(db)` says whether `db.DB()` returns the pool or an error.
- `mockCreated` is the outcome of `sqlmock.New`.
- `gdb` is the result of opening the mock dialer.

A Go panic is a `Panicked(reason)` status. The state left behind at the panic stays visible.
The field `closed` lists, in call order, every pool on which `sqlDB.Close()` was called.

## Model

| member | source | states |
|---|---|---|
| `Options.Apply` | config_option.go:6-24 | an option sets its own field to its value and leaves the other two fields unchanged |
| `Options.DefaultConfigOption` | config_option.go:45-51 | the defaults are 150 open connections, 150 idle connections and a lifetime of 100 |
| `Options.ApplyAll` | config_option.go:38-42 | folding options over a record leaves every field with its starting value or with the value of an option that targets it |
| `Options.Decoded` | config_option.go:37-43 | every decoded field holds its default or the value of an option that targets it |
| `Options.DecodeConfigOpts` | config_option.go:37-43 | the loop's result equals the left-to-right fold of the options over the defaults |
| `Options.DecodeEmpty` | config_option.go:45-51 | an empty option list decodes to exactly 150, 150, 100 |
| `Options.UntargetedKept` | config_option.go:38-42 | a field that no option in the list targets keeps its starting value |
| `Options.LastWriterWins` | config_option.go:39-41 | a field ends with the value of the last option in the list that targets it |
| `Options.DecodedField` | config_option.go:37-51 | each decoded field is the default when untargeted, otherwise the value of the last option on it |
| `Options.ApplyAllAppend` | config_option.go:39-41 | applying `a` and then `b` is the same as applying `a + b` |
| `Options.ApplyIdempotent` | config_option.go:6-24 | applying the same option twice in a row equals applying it once |
| `Options.DecodeShadow` | config_option.go:39-41 | of two adjacent options on one field the earlier can be dropped; the later one wins |
| `Options.ApplyCommutes` | config_option.go:6-24 | options on different fields commute |
| `Options.DecodePermutation` | config_option.go:39-41 | any reordering of a list whose options target pairwise distinct fields decodes to the same record |
| `Options.SingleValueWins` | config_option.go:39-41 | when options target a field and all of them write the same value, the field ends with that value |
| `Options.DecodeAllThree` | config_test.go:183-220 | lifetime, idle and open options in one list set all three fields |
| `Config.NewConfig` | config.go:37-55 | the six strings are copied verbatim; ParseTime is true and Loc is "Local"; the pool fields equal the decoded options; the log level is passed through |
| `Config.NewConfigDefaults` | config_test.go:21-44 | without options the pool settings are 150, 150, 100 |
| `Format.SprintfOperands` | config.go:59 | `Sprintf`, the formatting call, consumes exactly one operand per `%s`/`%t` verb of the format whenever it succeeds |
| `Format.SprintfConcat` | config.go:59 | formatting splits at any boundary where the first part consumes exactly its operands: the outputs concatenate |
| `Config.DsnExpansion` | config.go:59-67 | the DSN template applied to the eight fields gives the fields between the template's literals |
| `Config.GenDSN` | config.go:58-69 | a nil Connection yields no DSN. Otherwise the DSN is `User ":" Pwd "@tcp(" Host ":" Port ")/" DBName "?charset=" Charset "&parseTime=" true/false "&loc=" Loc`, and its length is the seven strings' lengths plus 34 plus 4 or 5 |
| `Config.GenDSNExample` | config_test.go:236-250 | fields "1" to "6" with parse time and "Local" give `1:2@tcp(3:4)/5?charset=6&parseTime=true&loc=Local` |
| `Config.NewConfigDsnSuffix` | config.go:47-59 | every DSN of a `NewConfig` result ends with `&parseTime=true&loc=Local` |
| `Config.NewConfigDsnIgnoresOptions` | config.go:37-59 | the DSN of a `NewConfig` result depends on neither the options nor the log level |
| `Registry.Deregistered` | mysql.go:106-118 | the key is removed only when it is present and its pool lookup succeeds; no other key changes |
| `Registry.Released` | mysql.go:110-118 | exactly one pool is closed when the key is present and its lookup succeeds, none otherwise |
| `Registry.DeregisterAbsent` | mysql.go:106-109 | deregistering an absent key changes nothing and closes nothing |
| `Registry.DeregisterAfterRegister` | mysql.go:96-118 | deregistering right after a successful registration closes that handle and removes the key |
| `Registry.Container.constructor` | mysql.go:18 | the registry starts empty with no pool closed |
| `Registry.Container.GetDBByKey` | mysql.go:28-30 | returns the handle under the key, or none when the key is absent |
| `Registry.Container.GetDB` | mysql.go:23-25 | `GetDBByKey` on "default" |
| `Registry.Container.DeregisterByKey` | mysql.go:105-119 | the new map is `Deregistered` of the old one, and the closed pools grow by `Released`, even if Close reports an error |
| `Registry.Container.Deregister` | mysql.go:100-102 | `DeregisterByKey` on "default" |
| `Registry.Container.RegisterByKey` | mysql.go:53-97 | deregisters first. A nil Connection, a failed open or a failed pool lookup panics with the deregistered map. On success only the key changes, and it maps to the handle opened on `GenDSN(config)` |
| `Registry.Container.Register` | mysql.go:48-50 | `RegisterByKey` on "default" |
| `Registry.Container.MockDBByKey` | mysql.go:132-160 | on success overwrites the key with the mock handle. It closes nothing, so any previous handle is dropped unclosed. Either failure panics with the map unchanged |
| `Registry.Container.MockDB` | mysql.go:127-129 | `MockDBByKey` on "default" |
| `Registry.Container.Close` | mysql.go:33-45 | no key is removed. The closed pools are those of distinct keys in some order, each with a successful lookup. Either every entry's pool was closed, or the loop stopped at an entry whose lookup failed |

## Left out

- GORM, the MySQL driver and go-sqlmock are not modelled. `gorm.Open`, `db.DB()`,
  `sqlmock.New` and the mock dialer are outcome parameters, and a `*gorm.DB` is an opaque
  `Handle`. The model cannot tell apart two handles that the parameters present as one.
- The pool setters `SetConnMaxLifetime`, `SetMaxOpenConns` and `SetMaxIdleConns`
  (mysql.go:91-93) are left out. So is the `time.Second` scaling of the lifetime. They only act
  on the driver's pool object.
- The logger built in `RegisterByKey` (mysql.go:59-66), `SetLogger` (mysql.go:122-124) and every
  `log.Print` are left out. They are I/O. An error from `sqlDB.Close()` is only logged, so the
  model records the close call and has no outcome for it.
- `MockDBByKey` and `MockDB` take no config parameter. The config they receive, and the
  `&Config{}` substituted for nil, is read only for `TablePrefix` and `SingularTable`. That
  naming strategy is not defined in config.go or config_option.go.
- The mock's return values (`*sql.DB`, `sqlmock.Sqlmock`) are not modelled. They are foreign
  objects.
- `WithSingularTable`, `WithTablePrefix`, `TablePrefix` and `SingularTable` are left out. The
  tests and mysql.go use them, but config.go and config_option.go do not define them, so their
  behaviour is unknown.
- A nil `*Config` passed to `RegisterByKey` or `GenDSN` is not modelled; `Config` is a value.
  A nil `Connection` inside it is modelled.
- `Format.Sprintf` models only `%s`, `%t` and `%%`. A mismatched verb, a missing or extra
  operand, or a trailing `%` gives `None`, where Go prints a diagnostic text. The DSN template
  triggers none of these.
- `GenDSN` does no escaping, so a field containing `:`, `@` or `/` makes the DSN ambiguous. No
  parsing round-trip is stated.
- Go's 64-bit `int` and `time.Duration` are unbounded integers here. The only arithmetic on
  them, the `time.Second` scaling at mysql.go:91, feeds a pool setter that is left out.
- A nil `ConfigOption` in the variadic list is not modelled. `decodeConfigOpts` would panic
  calling `apply` on it (config_option.go:40). The `With*` builders never return one.
- Go strings are byte sequences and the model's are character sequences. Concatenation, key
  equality and the additive length of `GenDSN` give the same results either way.
- Concurrency is not modelled. The Go map is unguarded, and the model runs every operation
  sequentially.
- `GenDSN` leaves its receiver unchanged. In the model this holds by construction, because
  `Config` is an immutable value and `GenDSN` is a function.
- The `With*` closures assign through a pointer to the local record in
  `decodeConfigOpts`. The model returns the updated record instead. No other part of the
  program can see the record, so the two agree.
- model.go holds an ORM struct with no behaviour and is not part of this model.
