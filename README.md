# server-http configuration builder, in Dafny

A model of the functional-options configuration builder of the `server`
package (server.go): the `options` record whose six fields start unset,
the option constructors `WithMaxHeaderBytes`, `WithWriteTimeout`,
`WithReadTimeout`, `WithIdleTimeout`, `WithHost` and `WithPort`, and the
constructor `New`, which rejects a nil handler, applies the options in order
to the record, stops at the first option that fails, checks the `host:port`
address, and resolves every unset field to its default (15s write, 15s read,
60s idle, net/http's default header limit of 1 << 20 bytes).

- `decimal.dfy` (module `Decimal`): the `%d` text of a non-negative integer,
  which `WithPort` stores, with its reading-back as a partner: the two are
  inverse bijections between naturals and canonical digit strings.
- `server.dfy` (module `Server`):
  - `Options` is the record, with `Maybe<T>` for a pointer field (`Unset` is nil).
  - `Option` has one constructor per setter. `ApplyOption` is what the closure
    does to the record; `ApplyOptions` is the in-order fold that stops at the
    first error.
  - `Resolve` and `Address` are the default resolution and the address text.
  - `Build` is `New` as a function of its inputs.
  - `OptionsRecord` is the mutable record. Its method `Apply` runs one option on
    it in place. The method `New` runs the source's loop over a fresh record and
    is proved equal to `Build`.
  - `Get`, `Target`, `Written` and `LastWrite` give a field-by-field view. They
    state the frame and last-writer-wins properties.

`net.ResolveTCPAddr` is not re-implemented: `New` and `Build` take a
parameter `resolves: string -> bool` that says whether the resolver accepts
an address, and a refusal becomes `BadAddress(addr)`. The handler is
`Maybe<Handler>`: `Unset` is a nil `http.Handler`. A `Handler` is an arbitrary
value that the builder only stores. A duration is an integer count of nanoseconds.

## Model

| member | source | states |
|---|---|---|
| `Server.New` | server.go:35-82 | the imperative constructor, with its loop over the options applied to a fresh mutable record, returns exactly `Build` of its inputs |
| `Server.OptionsRecord.Apply` | server.go:41-43 | running one option updates the record in place to what `ApplyOption` yields; on error the error is returned and the record is left unchanged |
| `Server.OptionsRecord.constructor` | server.go:39 | the record starts with all six fields unset |
| `Server.ApplyOption` | server.go:94-139 | an option fails exactly when it is `WithPort` with a negative port, and then with `NegativePort` |
| `Server.SetterFrame` | server.go:94-137 | each accepted option sets exactly its own field to its argument (a port to its decimal text) and leaves the other five fields unchanged |
| `Server.WithPortStoresDecimal` | server.go:129-137 | a port ≥ 0 is accepted and stored as canonical decimal text that reads back as the port; port 0 is stored as "0" |
| `Server.ApplyOptions` | server.go:40-44 | the in-order fold: no options leave the record as it was, and a failure is always `NegativePort`; its meaning is stated by `ApplyOptionsAppend`, `ApplyOptionsFailsIff` and `LastWriterWins` |
| `Server.ApplyOptionsAppend` | server.go:40-44 | options apply strictly in order: applying `a + b` is applying `a`, then `b` to its result, and an error in `a` means `b` is never applied |
| `Server.ApplyOptionsFailsIff` | server.go:40-44 | applying a sequence of options fails if and only if one of them is a negative port, and the error is `NegativePort` |
| `Server.ShortCircuit` | server.go:41-43 | once a rejected option is reached, the options after it do not change the outcome, which is `Failure(NegativePort)` |
| `Server.LastWriterWins` | server.go:96-136 | after a successful run each field holds what the last option aimed at it wrote, or its initial content if none did |
| `Server.Address` | server.go:82 | the address is the host, then ':', then the port; `SplitAddress` proves it splits back into the two |
| `Server.SplitAddress` | server.go:82 | the address is `host + ":" + port` and, when the port holds no ':', splits back at its last ':' into exactly that host and port |
| `Server.Resolve` | server.go:46-79 | an unset host or port becomes "", an unset write/read/idle timeout becomes 15s/15s/60s and an unset header limit 1 << 20, and a set value is used unchanged; `ResolveLastWrites` restates it in terms of the options passed |
| `Server.ResolveLastWrites` | server.go:46-79 | the resolved settings are the address of the last host and port written ("" when unset) and, per timeout and header limit, the last value written unchanged or else 15s/15s/60s/1 << 20 |
| `Server.Build` | server.go:35-91 | `New` as a function: it fails only with a nil handler, a negative port or an address the resolver refuses, and a success stores the given handler and an address the resolver accepted; `BuildOutcome` and `BuildSettings` state when each happens |
| `Server.BuildOutcome` | server.go:35-57 | a nil handler fails first whatever the options; then a negative port fails with its error; otherwise `New` fails exactly when the address does not resolve |
| `Server.BuildSettings` | server.go:46-91 | a successful `New` stores the handler, listens on the effective address, and uses each set timeout and header limit unchanged, with no range check, or else its default |
| `Server.BuildAddressSplits` | server.go:46-54 | the port part of a built address is "" or canonical decimal, and the address splits back into the last host and port written |
| `Server.PortIsDecimal` | server.go:135-136 | the stored port is always empty or a canonical decimal text, so it never contains ':' |
| `Decimal.Format` | server.go:135 | `%d` of a non-negative port is non-empty, all digits, starts with '0' only for 0, and is "0" for 0 |
| `Decimal.ValueOfFormat` | server.go:135 | reading back the decimal text gives the port that was formatted |
| `Decimal.FormatInjective` | server.go:135 | distinct ports have distinct decimal texts |
| `Decimal.FormatOfValue` | server.go:135 | every canonical digit string is the decimal text of its value, so formatting is a bijection onto canonical strings |

## Left out

- `net.ResolveTCPAddr` (server.go:54-57) is a library call: it is the parameter `resolves`, and its own error text is not modelled (`BadAddress` carries the address).
- Error messages are the constructors of `Error`, not the `fmt.Errorf` strings.
- The construction of `http.Server`, `context.WithCancel`, the `BaseContext` closure and `RegisterOnShutdown(cancel)` (server.go:80-91) are library wrappers with no logic of their own. `Build` returns the `Settings` the server is built with.
- `StartWithAwaitStop` (server.go:141-162) is left out. It is concurrency, OS signals, a deadline context, keep-alive toggling and `Shutdown`. Its swallowed serve error is left out with it.
- Integer widths: Go's `int` and `time.Duration` are 64-bit. The model uses unbounded integers, so ports, header limits and timeouts beyond 64 bits are not excluded. The source never does arithmetic on them, so no wrap-around can occur.
- A nil `Option` in `opts` makes `New` panic at server.go:41. `Option` has only the six setters, so this crash is not modelled.
- Go strings are byte strings; here a string is a sequence of `char`. A host whose bytes are not valid UTF-8 cannot be represented, and `Address`'s length ensures counts characters, not bytes.
- Wall-clock time: a duration is only a number of nanoseconds.
