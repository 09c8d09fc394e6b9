# nfex timer arithmetic

nfex is a network file extractor. It reassembles TCP streams and carves out
files whose signatures it recognises. Its top-level header,
`trunk/include/nfex.h`, holds two pieces of logic: the `PTIMERSUB` macro and
the `MAX` macro. Everything else in that header is declarations.

- `PTIMERSUB(tvp, uvp, vvp)` subtracts the `struct timeval` at `uvp` from the
  one at `tvp` and stores the result at `vvp`. It first subtracts the seconds
  and the microseconds separately. If the microseconds come out negative, it
  borrows one second once.
- `MAX(x, y)` is the larger of two values.

This project models both macros in one Dafny module, `Nfex` (`nfex.dfy`):

- `Time` is the value of a `struct timeval`: whole seconds `sec` and
  microseconds `usec`.
- `Timeval` is the struct itself, a class whose two fields are written in
  place.
- `PTimerSub` performs the macro's four assignments on the fields of `v`, in
  the macro's order.
- `Diff` is the pure value of the macro. `FromMicros` is an independent
  reference: the one normalised `Time` for a given number of microseconds.
  The lemmas relate the two.

## Model

| member | source | states |
|---|---|---|
| `Nfex.PTimerSub` | trunk/include/nfex.h:58-68 | The new value of `*vvp` is `Diff` of the old values of `*tvp` and `*uvp`. With no borrow, `v.sec = t.sec - u.sec` and `v.usec = t.usec - u.usec`. With a borrow, `v.sec = t.sec - u.sec - 1` and `v.usec = t.usec - u.usec + 1000000`. The operands are unchanged unless `v` is one of them. This holds when `v` aliases `t` or `u`. |
| `Nfex.SubIntoFirst` | trunk/include/nfex.h:61-66 | `PTIMERSUB(a, b, a)` with distinct `a` and `b` leaves in `a` the difference of the values `a` and `b` held before the call. `b` is unchanged. |
| `Nfex.SubIntoSecond` | trunk/include/nfex.h:61-66 | `PTIMERSUB(a, b, b)` with distinct `a` and `b` leaves in `b` the difference of the values `a` and `b` held before the call. `a` is unchanged. |
| `Nfex.SubSelf` | trunk/include/nfex.h:61-66 | `PTIMERSUB(a, a, a)` leaves `a` holding zero seconds and zero microseconds. |
| `Nfex.Diff` | trunk/include/nfex.h:61-67 | Total microseconds are conserved: `Micros(r) = Micros(t) - Micros(u)`. Exactly one second is borrowed when `t.usec < u.usec`, and none otherwise. The result is normalised (`0 <= usec < 1000000`) whenever both operands are. |
| `Nfex.FromMicros` | trunk/include/nfex.h:61-67 | Reference normal form: for any microsecond count, a normalised `Time` that stands for exactly that count. |
| `Nfex.NormalizedUnique` | trunk/include/nfex.h:63-67 | Two normalised times with the same microsecond count are equal. So the macro's normal form is unique. |
| `Nfex.FromMicrosOfMicros` | trunk/include/nfex.h:63-67 | A normalised time round-trips through its microsecond count. |
| `Nfex.DiffIsCanonical` | trunk/include/nfex.h:61-67 | On normalised operands, a single borrow yields exactly the reference normal form of `Micros(t) - Micros(u)`. |
| `Nfex.DiffNormalizedIff` | trunk/include/nfex.h:62-67 | The result is normalised if and only if the raw microsecond difference lies in `[-1000000, 1000000)`. This is because the macro never borrows a second time. |
| `Nfex.DiffNeedsNormalizedOperands` | trunk/include/nfex.h:62-67 | Normalised operands are needed for the range guarantee. Here `t` is normalised but `u.usec` holds two seconds' worth of microseconds, and the result is not normalised. |
| `Nfex.DiffSecNonNegativeIff` | trunk/include/nfex.h:61-67 | On normalised operands, the seconds of the difference are non-negative if and only if `t` is not earlier than `u`. |
| `Nfex.DiffShift` | trunk/include/nfex.h:61-67 | Consider two intervals measured from a common start `w`. On normalised operands, subtracting one interval from the other gives the interval between their end points. |
| `Nfex.DiffSwap` | trunk/include/nfex.h:61-67 | On normalised operands, swapping the operands negates the difference. A whole number of seconds just flips sign. Otherwise the result is `(-sec - 1, 1000000 - usec)`. |
| `Nfex.DiffFitsFields` | trunk/include/nfex.h:61-66 | Take normalised timestamps whose seconds are non-negative and fit in 64 bits. Then every value the macro stores fits its C field: `tv_sec` when `time_t` is 64 bits wide, and also when it is 32 bits wide and both seconds fit in 32 bits; `tv_usec`, at least 32 bits wide, always. On such inputs, unbounded arithmetic agrees with C arithmetic. |
| `Nfex.Max` | trunk/include/nfex.h:70-72 | `MAX(x, y)` is at least `x` and at least `y`, and it equals one of them. |

## Left out

- The declared functions of `trunk/include/nfex.h` are left out: the session list, the extraction functions, `convert_seconds`, logging, terminal handling, signal handling and the packet callback. The header declares them but does not define them, and their definitions are not part of this model.
- `struct nfex_statistics` and `struct nfex_control_context` (trunk/include/nfex.h:76-121) are left out. They are plain data with no behaviour in this file. Only the shape of `struct timeval` is needed, for `PTIMERSUB`.
- GeoIP support, the pcap handle and the output and index file handles are left out. They are foreign libraries and I/O.
- Nfex.PTimerSub: the fields are modelled as unbounded integers. C's signed overflow on `tv_sec` or `tv_usec` is not modelled. `DiffFitsFields` gives inputs for which it cannot happen: normalised operands whose seconds are in `[0, 2^63-1]`. It is a sufficient condition, not the full set of safe inputs.
- Nfex.PTimerSub: the macro evaluates `vvp` three times without a borrow and five times with one, and `tvp` and `uvp` twice each. Arguments with side effects would behave differently from the single evaluation of a method call's arguments. This is not modelled.
- Nfex.Max: modelled on integers only. `MAX` is a macro over any arithmetic type. It evaluates the chosen argument twice, which matters only for arguments with side effects, and Dafny expressions have none.
