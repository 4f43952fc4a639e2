# Sentinel pub/sub context

A Dafny model of `SentinelContext`, the Predis listener for the pub/sub
announcements of Redis Sentinel. It covers the two parts of the class that do
more than pass data through:

- **Frame classification** (`getValue`). A frame, already deframed by the
  connection, is a sequence of string, integer or null fields whose first
  field is the kind tag. An acknowledgement of `subscribe`, `psubscribe`,
  `unsubscribe` or `punsubscribe` comes back as a `{kind, channel, payload}`
  record. When its count field is the integer `0`, the context is also
  invalidated. A `message` is handed to `handleMessage` with fields 1 and 2, a
  `pmessage` with fields 2 and 3. Any other tag raises a `ClientException`.
  The context is the class `SentinelContext.SentinelContext`. Its `invalidated`
  field is the one bit of state that `getValue` changes. The frame is a
  parameter of `GetValue` instead of being read from the connection.
- **Notification decoding** (`handleMessage`, `parseDetails`). Every
  notification has kind `message`. The channels `+tilt` and `-tilt` carry no
  instance. `switch-master` hands its payload to `parseSwitch`. Every other
  channel has its payload cut by `explode(' ', $payload, 5)` into
  `type name host port [master]`. The port goes through PHP's `(int)` cast.
  When `type` is not `master`, the fifth piece is cut again by
  `explode(' ', $master, 3)` into the master's name and host. The nested
  record's port is the outer `$port`, because the third nested piece is
  assigned to `$post` (see Findings).

`php_strings.dfy` (module `PhpStrings`) models the PHP built-ins this code
relies on:

- `explode` on a space with a positive limit, with `implode` as its partner;
- the `(int)` cast of a string, as C's `strtol` in base 10 computes it: skip
  leading white space, read an optional sign, then read the longest run of
  digits, giving 0 when there are none;
- the decimal text PHP produces for an integer used as a string.

`sentinel_context.dfy` (module `SentinelContext`) holds the frame values, the
closed `Kind` enumeration, the event and instance records, `HandleMessage`,
`ParseDetails` and the class. Beside the class, the method
`SubscriptionLifecycle` plays one session of frames against `GetValue` and
checks the states that its contract implies. It is a usage scenario of the
model and corresponds to no particular lines of `SentinelContext.php`.

Decisions `SentinelContext.php` leaves open:

- **Missing pieces.** When a payload has fewer than five pieces, PHP's `@list`
  gives nulls. The model keeps these as `None`, not as a precondition, so
  every payload decodes. `(int) null` is 0. On a missing fifth piece,
  `explode` reads null as `""` and yields `[""]`, so the nested master gets
  the name `""` and no host (`ParseTruncatedAnnouncement`). A frame field
  past the end of the frame reads as `Null`.
- **Kind tags.** The six tags are inherited from `AbstractPubSubContext`,
  which is not part of this model. They are taken to be the Redis kind names
  `subscribe`, `psubscribe`, `unsubscribe`, `punsubscribe`, `message` and
  `pmessage`.
- **The model follows the code where a stricter design would differ.**
  - A non-numeric port is not an error. It casts to 0, or to its leading
    digits.
  - `getValue` stays callable after invalidation.
  - The `switch-master` grammar is not decoded here, because `parseSwitch` is
    not part of this model.

## Model

| member | source | states |
|---|---|---|
| `PhpStrings.Explode` | lib/Predis/Sentinel/SentinelContext.php:127 | `explode(' ', s, limit)` returns at least one and at most `limit` pieces |
| `PhpStrings.JoinExplode` | lib/Predis/Sentinel/SentinelContext.php:127 | joining the pieces of `explode` with single spaces gives back the original string, so no character is lost or added |
| `PhpStrings.ExplodeTokens` | lib/Predis/Sentinel/SentinelContext.php:127 | every piece but the last is free of spaces; the last piece is free of spaces too when fewer than `limit` pieces came out |
| `PhpStrings.ExplodeUnique` | lib/Predis/Sentinel/SentinelContext.php:127 | any cut of `s` that joins back to `s`, has no more than `limit` pieces and has spaces only where the limit keeps them in the last piece is exactly `explode`'s result |
| `PhpStrings.ExplodeFive` | lib/Predis/Sentinel/SentinelContext.php:127 | `"a b c d e"` with `a`..`d` free of spaces splits with limit 5 into `[a, b, c, d, e]`, and `e` keeps its inner spaces |
| `PhpStrings.ExplodeFour` | lib/Predis/Sentinel/SentinelContext.php:127 | a four-token payload splits with limit 5 into its four tokens |
| `PhpStrings.ExplodeThree` | lib/Predis/Sentinel/SentinelContext.php:137 | `"a b c"` with `a`, `b` free of spaces splits with limit 3 into `[a, b, c]`, and `c` keeps its inner spaces |
| `PhpStrings.IntCastOfIntToString` | lib/Predis/Sentinel/SentinelContext.php:133 | the `(int)` cast reads back every integer from PHP's decimal text for it |
| `PhpStrings.IntCastOfDigitsThenText` | lib/Predis/Sentinel/SentinelContext.php:133 | the `(int)` cast of a string that starts with digits is the value of those digits, whatever follows them |
| `PhpStrings.IntCast` | lib/Predis/Sentinel/SentinelContext.php:133 | the `(int)` cast of a string that starts with no white space, sign or digit is 0, not an error; a negative result needs a `-` and a positive one a digit or `+` as the first character after leading white space |
| `SentinelContext.KindOf` | lib/Predis/Sentinel/SentinelContext.php:67-90 | a tag is recognised as a kind exactly when it equals that kind's name; a tag equal to no kind's name is recognised as none |
| `SentinelContext.KindOfKindName` | lib/Predis/Sentinel/SentinelContext.php:68-85 | each of the six tags is recognised as its own kind, so the six `case` labels are distinct |
| `SentinelContext.SentinelContext.GetValue` | lib/Predis/Sentinel/SentinelContext.php:63-92 | for a subscribe-family frame, the result is the `Ack` of fields 0, 1 and 2 whatever the state; `message` gives `HandleMessage(field 1, field 2)`; `pmessage` gives `HandleMessage(field 2, field 3)`, so the pattern is ignored; an unknown tag gives an error exactly when no kind matches; every notification has kind `message`; afterwards the context is invalidated exactly when it was before or the frame is an acknowledgement whose field 2 is the integer 0 (a string `"0"` or a positive count leaves the state alone) |
| `SentinelContext.HandleMessage` | lib/Predis/Sentinel/SentinelContext.php:101-116 | the result is a notification of kind `message` on the given channel; it has no instance exactly when the channel is `+tilt` or `-tilt`; on `switch-master` the instance is the raw payload, otherwise it is `ParseDetails(payload)` |
| `SentinelContext.ParseDetails` | lib/Predis/Sentinel/SentinelContext.php:125-147 | a master record is present exactly when the type is not `"master"`, and its port always equals the outer instance's port |
| `SentinelContext.ParseDetailsTokens` | lib/Predis/Sentinel/SentinelContext.php:127-136 | for `"type name host port rest"` with the first four tokens free of spaces, the fields are exactly those tokens, the port is the `(int)` cast of the port token, and the master record is there exactly when the type is not `"master"` |
| `SentinelContext.ParseMasterAnnouncement` | lib/Predis/Sentinel/SentinelContext.php:125-147 | `"master name host port"` decodes to exactly those fields and no master record |
| `SentinelContext.ParseNestedMaster` | lib/Predis/Sentinel/SentinelContext.php:136-143 | `"type name host port mname mhost mport"` with a non-master type decodes to the instance with master record `{mname, mhost, (int) port}`: the master's port is the outer port |
| `SentinelContext.ParseTruncatedAnnouncement` | lib/Predis/Sentinel/SentinelContext.php:127-143 | a non-master payload that stops after the port still gets a master record, with name `""`, no host and the outer port |
| `SentinelContext.NestedPortAsWritten` | lib/Predis/Sentinel/SentinelContext.php:137-142 | whenever the outer and nested port tokens cast to different integers, the master record built as written does not carry the nested port |
| `SentinelContext.ParseDetailsIntended` | lib/Predis/Sentinel/SentinelContext.php:137-142 | the corrected decoder agrees with `ParseDetails` on the instance fields, has a master record exactly when `ParseDetails` does, gives it the same name and host, and takes its port from the `(int)` cast of the third piece of the nested `explode` |
| `SentinelContext.ParseNestedMasterIntended` | lib/Predis/Sentinel/SentinelContext.php:137-142 | the corrected decoder gives `"type name host port mname mhost mport"` the master record `{mname, mhost, (int) mport}` |

## Left out

- Construction of the connection parameters, the stream connection and the server profile (lines 34-40): connection and library setup.
- `writeCommand` (lines 45-50): it builds commands through `Helpers::filterArrayArguments` and the profile's command factory, which are not part of this model.
- `disconnect` (lines 55-58): transport I/O.
- Reading of the frame by `connection->read()` (line 65): network I/O. The frame is a parameter of `GetValue`.
- `parseSwitch` (line 112) is not part of this model. A `switch-master` notification carries its raw payload (`SwitchPayload`) in place of a decoded record.
- The iteration loop of `AbstractPubSubContext` and the body of `invalidate()` are not part of this model. Invalidation is modelled only as setting the `invalidated` field.
- `getValue` does not refuse calls after invalidation, and the model does not either.
- `SentinelContext.SentinelContext.GetValue`: compares the tag with the six kind names by exact value. PHP's `switch` uses loose `==`, under which an integer tag `0` would match the first case before PHP 8. The model treats it as an unknown tag.
- `PhpStrings.IntCast`: does not model the saturation of `(int)` at the 64-bit integer bounds. It also does not model PHP 7.1 and later reading a decimal point or exponent in a numeric string. What it models is the C `strtol` behaviour of PHP 5.
- PHP notices for short payloads are not modelled. They do not change the values involved: `@list` suppresses them on line 127, and line 137 raises one without stopping.

## Findings

| source | as written | input that shows it | evidently intended | confidence | as-written member | corrected member |
|---|---|---|---|---|---|---|
| lib/Predis/Sentinel/SentinelContext.php:137-142 | the third nested piece is assigned to `$post`, and the master record's `port` is `(int) $port`, the instance's own port | payload `slave replica1 10.0.0.2 6380 mymaster 127.0.0.1 6379` gives master port 6380 | the master record's port is `(int)` of the third nested piece (6379) | high (not executed) | `SentinelContext.NestedPortAsWritten` | `SentinelContext.ParseNestedMasterIntended` |

`HandleMessage` and `GetValue` keep the behaviour as written, because callers
of the library can observe it and may depend on it. `ParseDetailsIntended` is
the corrected decoder, proved alongside.
