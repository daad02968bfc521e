# Christmas watchface: display text model

A Dafny model of the display logic of a Pebble watchface (`src/main.c`).
The watchface shows three texts: the time on a 12-hour clock, the time on a
24-hour clock, and the battery state. Two host notifications drive them:

- A once-per-second tick runs `update_time`. It formats the clock with
  `strftime` and the formats `"%I:%M"` and `"%H:%M"` into two 8-byte static
  buffers, then points the two time layers at them.
- A battery-state change runs `display_batt_attr`. It formats either
  `"charging..."` or `"%d%c"` (percent, then `'%'`) with `snprintf` into a
  40-byte static buffer, then points the battery layer at it.

When the window is loaded, the layers get the placeholders `"00:00"`,
`"00:00"` and `"000%"`. Before loading returns, the battery state read from
the battery service replaces the battery placeholder.

The model has three modules:

- `Numerals` (numerals.dfy): unpadded decimal numerals (`Decimal`) and
  two-digit zero-padded fields (`TwoDigits`). `ValueOf` reads a digit
  string back. Together with it, `Decimal` is proved to be a bijection onto
  the canonical numerals.
- `CFormat` (cformat.dfy): the C library behaviour the watchface relies on,
  following ISO/IEC 9899:2011.
  - `printf`-style expansion of `%d`, `%c` and `%%`, and the truncation
    that `snprintf` applies (section 7.21.6.5).
  - `strftime` with `%H`, `%I`, `%M` and `%%`, including its "does not fit"
    outcome (section 7.27.3.5). The 12-hour clock hour is `Hour12`.
- `Watchface` (watchface.dfy):
  - the formatting functions `BatteryText`, `Time12Text` and `Time24Text`.
    Their bodies run the C-level formatting into buffers of the source's
    sizes. Their contracts state the resulting text.
  - the `Display` class. Its three string fields are the three slots. Its
    constructor sets the placeholders. `UpdateTime` and `DisplayBattAttr`
    each rewrite only their own slots. `MainWindowLoad` sets the
    placeholders and then shows the battery state read at load.
  - a value-level `Replay` of any sequence of tick and battery events. It
    is proved to leave each slot holding the text of the most recent event
    that concerns it.

## Notes on the source

- `charge_percent` is a `uint8_t` in the SDK's `BatteryChargeState`. So the
  formatter can see any value 0..255, not only 0..100. The bounds are proved
  for the whole 0..255 range. The SDK header is not part of this model; the
  field's type is taken from the SDK's published definition.
- `src/main.c:36` passes `sizeof(s_buffer)` as the bound for `t_buffer`.
  Both buffers are 8 bytes, so this changes nothing. The model uses one
  constant, `TimeBufferSize`.

## Model

| member | source | states |
|---|---|---|
| `Numerals.Decimal` | src/main.c:19 | The `%d` numeral of a natural is non-empty, all digits, and starts with '0' only for zero (no zero-padding) |
| `Numerals.ValueOfDecimal` | src/main.c:19 | Reading back the numeral `Decimal(n)` gives `n` |
| `Numerals.DecimalOfValue` | src/main.c:19 | Every canonical numeral is `Decimal` of its value, so `Decimal` is a bijection onto the canonical numerals |
| `Numerals.DecimalLength` | src/main.c:14-19 | A natural below 10^k takes at most k digits |
| `Numerals.TwoDigits` | src/main.c:35-36 | The two-digit field of `%H`/`%I`/`%M` is exactly two digits that read back to the value |
| `CFormat.Printf` | src/main.c:17-19 | The `printf` expansion copies ordinary characters, so a format with no conversion prints itself, whatever the arguments (the `"charging..."` call) |
| `CFormat.PrintfIntChar` | src/main.c:19 | `"%d%c"` with an int and a one-byte char prints the int's numeral followed by the char |
| `CFormat.PrintfPromotions` | src/main.c:15-19 | After the default argument promotions, `%d` prints a char argument's code and `%c` prints an int argument as the byte it converts to |
| `CFormat.Snprintf` | src/main.c:17-19 | `snprintf` into an n-byte buffer stores a prefix of the output of length min(output, n-1) and returns the full output length |
| `CFormat.SnprintfComplete` | src/main.c:17-19 | The output is stored whole exactly when the returned count is below the buffer size |
| `CFormat.Hour12` | src/main.c:35 | The `%I` hour lies in 1..12 and agrees with the 24-hour hour modulo 12. Hour 0 maps to 12, hours 1..12 are kept, and hours 13..23 map to h-12 |
| `CFormat.Strftime` | src/main.c:35-36 | `strftime` stores its output exactly when the format expands and the output and the terminator fit in maxsize bytes, and what it stores is the expansion of the format |
| `CFormat.StrftimeExpand` | src/main.c:35-36 | The `strftime` expansion copies ordinary characters unchanged, so a format with no conversion expands to itself |
| `CFormat.StrftimeHourMinute` | src/main.c:35-36 | `"%H:%M"` and `"%I:%M"` expand to the two-digit hour (24- or 12-hour), a colon and the two-digit minute |
| `Watchface.BatteryText` | src/main.c:13-20 | Charging gives exactly `"charging..."` whatever the percent. Otherwise the text is the unpadded percent then '%'. The text is at most 11 characters, so the 40-byte buffer never truncates it |
| `Watchface.Time12Text` | src/main.c:33-35 | The 12-hour text is the two-digit 12-hour clock hour, ':', and the two-digit minute, with no AM/PM marker. Seconds play no part |
| `Watchface.Time24Text` | src/main.c:33-36 | The 24-hour text is the two-digit hour, ':', and the two-digit minute. Seconds play no part |
| `Watchface.BatteryTextReadBack` | src/main.c:18-19 | A non-charging text ends in a single '%', and the part before it is the canonical numeral of the percent |
| `Watchface.BatteryTextInjective` | src/main.c:16-19 | Two battery states give the same text iff both are charging, or neither is and their percents agree |
| `Watchface.BatteryPlaceholderNeverLive` | src/main.c:75 | `"000%"` is never a formatted battery text. It is wider than every non-charging text below 100 percent |
| `Watchface.Time24TextReadBack` | src/main.c:36 | The 24-hour text is 5 characters (fits the 8-byte buffer), with ':' at index 2, and its two fields read back to the hour and minute |
| `Watchface.Time12TextReadBack` | src/main.c:35 | The 12-hour text is 5 characters (fits the 8-byte buffer), with ':' at index 2. Its hour field is in 1..12 and equals the hour modulo 12, and its minute field reads back to the minute |
| `Watchface.Time24TextInjective` | src/main.c:36 | Two times give the same 24-hour text iff their hours and minutes agree |
| `Watchface.Time12TextInjective` | src/main.c:35 | Two times give the same 12-hour text iff their hours agree modulo 12 and their minutes agree, so only AM/PM is lost |
| `Watchface.Time12FromTime24` | src/main.c:35-36 | For hours 1..12 the two texts are equal. For 13..23 the 12-hour text is the 24-hour text of h-12. For hour 0 it is the 24-hour text of hour 12 |
| `Watchface.TimePlaceholderLive` | src/main.c:80-87 | `"00:00"` is the 24-hour text of exactly the minute 00:00, and never a 12-hour text |
| `Watchface.Dispatch` | src/main.c:13-45 | One handler run: a tick (`tick_handler`, then `update_time`) leaves the battery slot unchanged, and a battery change (`display_batt_attr`) leaves both time slots unchanged |
| `Watchface.Replay` | src/main.c:13-45 | A run of ticks alone never changes the battery slot, and a run of battery changes alone never changes the time slots |
| `Watchface.ReplayShowsLatest` | src/main.c:13-45 | After any sequence of events, the time slots hold the texts of the last tick and the battery slot the text of the last battery change. A slot with no such event keeps its previous text |
| `Watchface.DispatchIdempotentAndIndependent` | src/main.c:13-41 | Handling the same event twice equals handling it once. A tick and a battery change commute |
| `Watchface.TimeExamples` | src/main.c:35-36 | 09:05:30 shows `"09:05"`/`"09:05"`, 13:00:00 shows `"01:00"`/`"13:00"`, and 00:07 shows `"12:07"` on the 12-hour clock |
| `Watchface.BatteryExamples` | src/main.c:16-19 | 7% not charging shows `"7%"`, 100% shows `"100%"`, and 45% charging shows `"charging..."` |
| `Watchface.Display.constructor` | src/main.c:75-87 | The slots start as `"00:00"`, `"00:00"`, `"000%"` |
| `Watchface.MainWindowLoad` | src/main.c:75-99 | After the window loads, the time slots hold `"00:00"` and the battery slot holds the text of the state read at load, which is never the `"000%"` placeholder |
| `Watchface.Display.UpdateTime` | src/main.c:27-41 | A time update sets both time slots to the formatted texts and leaves the battery slot unchanged |
| `Watchface.Display.DisplayBattAttr` | src/main.c:13-24 | A battery update sets the battery slot to the formatted text and leaves both time slots unchanged |

## Left out

- Reading the clock with `time(NULL)` and `localtime` (src/main.c:29-30):
  time-zone conversion is a foreign call. `UpdateTime` takes the resulting
  broken-down time as a parameter, in the normal `struct tm` ranges.
- `tick_handler` (src/main.c:43-45) ignores the time it is given and calls
  `update_time`, which reads the clock again. A `Tick` event carries that
  second clock sample.
- Window and layer creation and destruction, geometry, colours, fonts,
  alignment and child-layer wiring (src/main.c:48-112): UI toolkit plumbing.
- Tick and battery service subscription, `window_stack_push`, the event
  loop, `init`, `deinit` and `main` (src/main.c:115-147): host lifecycle.
  `Replay` accepts any order of events, so it assumes nothing about whether
  the startup `display_batt_attr` (line 99) or `update_time` (line 135) runs
  first.
- `text_layer_set_text` keeps a pointer to the static buffer instead of
  copying it. Each slot is modelled as the string value the buffer holds.
- Rendering to the screen.
- `Printf` and `StrftimeExpand` cover only the conversions the watchface
  uses. `None` marks formats outside the model: flags, field widths,
  precisions, other conversions such as `%x`, `%s`, `%Y`, `%p` or `%S`, and
  missing arguments. C defines most of these formats. Some are undefined,
  for example an invalid conversion specifier, a missing argument, or a
  precision given with `%c`. A `CharArg`
  holds a Dafny `char`; C's `char` is one byte, so the lemmas about the
  watchface's own call take character codes below 256.
- `Strftime`: when the output does not fit, C leaves the buffer contents
  indeterminate. The model returns `None` and does not say what the buffer
  holds.
- The `is_plugged` field of `BatteryChargeState` is never read and is
  omitted.
