# claude-quota in Dafny

A model of the decision and arithmetic core of claude-quota, a system-tray
widget. The widget polls the Anthropic OAuth usage endpoint and shows the
five-hour, seven-day and Sonnet seven-day utilisation of a Claude
subscription. The model covers:

- **Projection engine** (`projection.dfy`). It extrapolates the five-hour
  utilisation to the window's reset and estimates when 100 % will be
  reached.
- **Fetch cycle** (`quota.dfy`). One fetch is a pure transition from the
  credential outcome, the HTTP outcome and the clock to the next published
  `QuotaState` snapshot.
  - `client.dfy` composes the fetch with the credential store.
- **Text formatting** (`format.dfy`, with decimal rendering in
  `decimal.dfy`). This covers the remaining-time, updated-ago, projection,
  saturation and quota lines.
  - Read-back functions show that each text encodes the numbers it was
    made from.
- **ICO container** (`ico.dfy`). The encoder wraps a PNG in a one-image
  ICO file; a decoder reads it back.
- **Configuration** (`settings.dfy`, `thresholds.dfy`, `overrides.dfy`).
  This covers the defaults, the validation applied after decoding the file,
  and the flag > environment > file layering.
  - `float64.dfy` and `float_overrides.dfy` evaluate the float-valued
    overrides on Go `float64` values, NaN and the infinities included (see
    "## Findings").
- **Credential store** (`credentials.dfy`). It covers:
  - the expiry check;
  - loading from the credentials file or the macOS keychain;
  - the token refresh;
  - writing the tokens back into the credentials document.
- **Classifiers** (`icon.dfy`). These are the icon colour, the font and
  indicator names, and which icon `renderIcon` draws.
- **Tray tooltip** (`tray.dfy`).

Conventions used throughout:

- Utilisation is `real`.
- Times are `int` nanoseconds (`Projection.Time`). The credential store
  uses milliseconds since the epoch, as the source does.
- The clock is always passed in as `now`.
- Strings are sequences of runes.
- Two things are function parameters:
  - RFC 3339 timestamp parsing (section 5.6 of RFC 3339);
  - the locale-dependent renderings, which are the `%.0f` percentage, the
    "Mon 15:04" date and the "15:04:05" clock (`Format.Locale`).
- HTTP, file, keychain and JSON decoding become datatypes describing what
  they produced.

Where the source's files disagree, the model follows the code:

- `isExpired` counts `expiresAt == 0` as expired. `Credentials.ZeroExpiryIsExpired`
  states this, although the test suite expects otherwise.
- The Go definition of `ValidIndicatorName` is not part of this model.
  `Icon.ValidIndicatorName` is defined from the names that
  icon_test.go:320-334 accepts and rejects.
- The snapshot record carries the seven-day projection fields the tray
  reads. The fetch never fills them.
- The token-expired error kind is not produced by the credential store in
  credentials.go and credentials_darwin.go. `Client.FetchWithStore` therefore proves that the snapshot's
  `tokenExpired` flag is never set through the store.

## Model

| member | source | states |
|---|---|---|
| Projection.ComputeProjection | quota.go:186-197 | A projection exists exactly when usage is positive, the reset is after now, the window is positive and has started. Projection/window equals usage/elapsed time, so it is not capped, and it strictly exceeds the current usage. |
| Projection.TimeToSaturation | quota.go:211-212 | The time to saturation is the whole-nanosecond truncation of elapsed·(100 − usage)/usage. It is non-negative and within one nanosecond's worth of usage of the exact value. |
| Projection.ComputeSaturationTime | quota.go:202-218 | A saturation time exists only for usage strictly between 0 and 100 in a running window. It lies in [now, reset), and elapsed time and usage bound it from both sides. |
| Projection.SaturationBeforeReset | quota.go:206-217 | In a running window with usage in (0, 100), a saturation time is returned exactly when elapsed·(100 − usage) < (reset − now)·usage, that is, when the exact saturation falls before the reset. |
| Projection.SaturationIffProjectionOver100 | quota.go:137-141 | For usage strictly between 0 and 100, a saturation time exists exactly when the projection exists and is above 100 %. |
| Projection.GateIsRedundant | quota.go:136-141 | In exact arithmetic, where durations do not overflow, computing the saturation only behind the "projected > 100" gate gives the same result as computing it unconditionally. |
| Quota.Truncate | quota.go:220-226 | The result is a prefix of the input whose length is the input's when that is at most n, else exactly n runes. |
| Quota.TruncateIdempotent | quota.go:220-226 | Truncating twice equals truncating once, and an input of at most n runes comes back unchanged. |
| Quota.ParseBucket | quota.go:157-173 | An absent bucket leaves both outputs untouched. A present utilisation is copied, else the old one is kept. The reset time changes only to a successfully parsed timestamp, and always does on a successful parse. |
| Quota.ParseBucketIdempotent | quota.go:157-173 | Parsing the same bucket a second time over the first result changes nothing. |
| Quota.StatusMessage | quota.go:99-108 | Status 401 gives the "Token invalid" message and 403 the missing-scope message. Any other status gives "HTTP " followed by the code. The message is never empty. |
| Quota.StatusMessageReadBack | quota.go:99-108 | Every status, negative ones included, is recovered from its message. |
| Quota.StatusMessageInjective | quota.go:99-108 | Two statuses with the same message are the same status. |
| Quota.ErrorState | quota.go:149-154 | The error-only snapshot carries no data, the given message and the given expired flag. |
| Quota.DataState | quota.go:121-141 | A fresh snapshot stamped with now and without error. Each bucket comes from parsing into an empty snapshot. The five-hour projection and saturation equal the unconditional computations when usage and reset are known, and the seven-day projection fields stay empty. |
| Quota.Fetch | quota.go:66-147 | Success exactly on a token, status 200 and a decodable body. Every failure publishes an error-only snapshot with the message of its path (truncated to 50 runes except status messages). The expired flag comes only from the credential error. On success the snapshot is exactly the data snapshot of the decoded body (`Quota.DataState`). The result always satisfies the snapshot invariant `WellFormed`. |
| Quota.SuccessPublishesBody | quota_test.go:176-217 | A successful fetch of 42.5 % (five hours, reset already passed), 73 % (seven days) and 10 % (Sonnet) publishes exactly those figures, the parsed reset, and no projection or saturation. |
| Quota.FailureHasError | quota.go:66-119 | When the underlying error texts are non-empty, a fetch fails exactly when its snapshot shows an error. |
| Client.UnixMilli | credentials.go:81 | The milliseconds are the floor of the nanosecond instant: ms·10⁶ ≤ now < (ms + 1)·10⁶, before the epoch as well. |
| Client.AsCredentialError | quota.go:71-74 | The store's error reaches the fetch with its own text and never as the token-expired kind. |
| Client.FetchWithStore | quota.go:66-77 | One cycle over the credential store. The store ends as GetAccessToken leaves it and is unchanged while the token is fresh. The expired flag is never set, success needs status 200, and a token failure publishes an error-only snapshot with the store's error text truncated to 50 runes. With a token, the cycle is exactly `Quota.Fetch` with that token. |
| Client.FreshStoreFetchesWithCachedToken | quota.go:66-77 | While the cached token is fresh, a cycle is a plain fetch with it and the refresh response makes no difference. |
| Format.WholeSeconds | format.go:20 | The whole seconds of a non-negative duration, truncated. |
| Format.HoursMinutesOf | format.go:20-22 | Minutes are below 60, and hours·3600 + minutes·60 falls within the last minute before the total. |
| Format.FormatTimeRemaining | format.go:10-28 | "unknown" without a time and "now" once it has passed. Otherwise the hours-and-minutes text of the whole seconds left. |
| Format.HoursMinutesRoundTrip | format.go:24-27 | Reading back "Xh Ym" or "Ym" recovers the hours and minutes. |
| Format.TimeRemainingReadBack | format.go:15-27 | The remaining-time text reads back to hours and minutes whose total lies within the last minute before the seconds left, with minutes below 60. |
| Format.FormatResetDate | format.go:31-37 | Empty without a reset time. With a locale that never renders an empty date, empty exactly when the time is absent. |
| Format.AgoOf | format.go:48-59 | Under a minute gives seconds. Under an hour gives minutes and seconds summing to the total with seconds below 60. Otherwise hours and minutes below 60, dropping the seconds. |
| Format.FormatUpdatedAgo | format.go:40-60 | "Updated: --" without a time. A stamp in the future reads as "0s ago", and every other text starts with "Updated: ". |
| Format.AgoRoundTrip | format.go:50-59 | Each of the three "Updated: … ago" shapes reads back to the values it was rendered from. |
| Format.UpdatedAgoReadBack | format.go:40-60 | The updated-ago text reads back to the bucket the age falls in, with the age clamped at zero. |
| Format.FormatProjectionLine | format.go:73-78 | The line is empty exactly when there is no projection. |
| Format.ProjectionLineReadBack | format.go:73-78 | A projection line reads back to exactly the locale's rendering of the projected percentage. |
| Format.FormatSaturationLine | format.go:63-70 | The line is empty exactly when there is no saturation time. |
| Format.TimeRemainingCommaFree | format.go:10-28 | The remaining-time text never contains a comma. |
| Format.SaturationLineReadBack | format.go:63-70 | Splitting a saturation line at its first ", " recovers the remaining-time text and the date of the saturation moment. |
| Format.FormatQuotaLine | format.go:81-91 | "label: --" without a utilisation. Otherwise the line starts with "label: N%". A parenthesised remaining time and date follows exactly when the date text is non-empty. |
| Format.QuotaLineResetPart | format.go:85-90 | With a locale that never renders an empty date, the reset part is absent exactly when the reset time is. |
| Decimal.NatToString | format.go:25-27 | The `%d` rendering of a natural number is non-empty and all digits, with no leading zero beyond the first digit. |
| Decimal.DigitsValueOfNatToString | format.go:25-27 | The digits of the `%d` rendering of n denote n. |
| Decimal.ReadNatOfRendered | format.go:25-27 | Reading a number back from its rendering followed by a non-digit recovers the number and the rest. |
| Decimal.IntToString | quota.go:107 | The `%d` rendering of an integer is non-empty, and all digits exactly when the integer is non-negative. |
| IcoEncode.IcoDimension | icon_encode_windows.go:25-32 | A dimension of 256 or more becomes 0. Anything below is its low byte, which equals it in range. |
| IcoEncode.WrapPNGInICO | icon_encode_windows.go:21-54 | The file is 22 bytes longer than the PNG. The layout is: header 0,1,1 as little-endian 16-bit words, width and height bytes, two zero bytes, planes 1 and 32 bits per pixel, the PNG size modulo 2^32, data offset 22, then the PNG unchanged. |
| IcoEncode.LE16RoundTrip | icon_encode_windows.go:37-39 | A little-endian 16-bit field reads back to the value written, wherever it sits. |
| IcoEncode.LE32RoundTrip | icon_encode_windows.go:49-50 | A little-endian 32-bit field reads back to the value written, wherever it sits. |
| IcoEncode.WrapThenParse | icon_encode_windows.go:21-54 | For a PNG below 4 GiB, decoding the wrapped file gives back the dimensions, planes 1, 32 bits per pixel and the PNG itself. |
| Thresholds.OrderThresholds | config.go:130-133 | Swaps warning and critical when warning is not below critical. The result is ordered, holds the same two values, and is unchanged when already strictly ordered. |
| Settings.DefaultConfig | config.go:41-56 | The defaults are poll 300 s, font 34 "bold", halo 2, icon 64, "pie", text shown, and thresholds 60/85. They are themselves valid. |
| Settings.ConfigShowText | config.go:59-64 | An unset text choice means true, else its value. |
| Settings.SanitizeKeepsShowText | config.go:119-121 | Validation never changes whether the text is drawn, and it always leaves the choice set. |
| Settings.ThresholdOr | config.go:122-129 | A threshold in (0, 100] is kept, anything else becomes the default. |
| Settings.Sanitize | config.go:90-133 | Each setting is kept when in range or known, else replaced by its default. An unset text choice gets the default. The thresholds are the kept-or-default pair in order, and the result is valid. |
| Settings.SanitizeKeepsValid | config.go:90-133 | A valid configuration passes validation unchanged. |
| Settings.SanitizeIdempotent | config.go:90-133 | Validating twice is the same as validating once. |
| Settings.Overlay | config.go:67-85 | Decoding a file into the defaults: each field the file gives replaces the base value, each field it leaves out keeps it, and a thresholds object replaces only the levels it names. |
| Settings.OverlayEmptyDoc | config.go:67-85 | An empty file document leaves the base configuration unchanged. |
| Settings.OverlayIdempotent | config.go:67-85 | Decoding the same document twice is the same as decoding it once. |
| Settings.LoadConfig | config.go:68-136 | A missing, unreadable or malformed file gives exactly the defaults. A parsed file gives the validated result of decoding it over the defaults. Any outcome is valid. |
| Settings.PartialFileKeepsDefaults | config.go:68-136 | Settings a file leaves out keep their defaults. Every valid setting it gives is kept: Claude home, poll interval, font size and name, halo, icon size, indicator, an explicit text choice, and a strictly ordered pair of thresholds in (0, 100]. |
| Overrides.Layer | main.go:164-186 | A usable flag wins, else a usable environment value, else the configuration value. |
| Overrides.EnvShowText | main.go:240-251 | Only "true"/"1" set true, and only "false"/"0" set false. |
| Overrides.OverridePositive | main.go:166-175 | Poll interval, and likewise icon size at main.go:214-223: positive flag, else positive environment value, else file. |
| Overrides.OverrideFontSize | main.go:177-186 | Font size: positive flag, else positive environment value, else file. |
| Overrides.OverrideFontName | main.go:188-201 | Font name: known flag, else known environment value, else file. Unknown names are ignored. |
| Overrides.OverrideHaloSize | main.go:203-212 | Halo: a non-negative flag, so 0 disables the halo and negative values mean unset. Else a non-negative environment value, else file. |
| Overrides.OverrideIndicator | main.go:225-238 | Indicator: known flag, else known environment value, else file. |
| Overrides.OverrideShowText | main.go:240-254 | Show-text: a given flag, else a recognised environment value, else file. |
| Overrides.OverrideThreshold | main.go:256-280 | Threshold: flag in (0, 100], else environment value in (0, 100], else file. Values above 100 are ignored. |
| Overrides.ShowTextUntouched | main.go:240-254 | Without a show-text flag and without a recognised variable, whether the text is drawn is what the file says. |
| Overrides.ApplyOverrides | main.go:164-286 | The Claude home is kept. Each of poll interval, font size, font name, halo, icon size, indicator and text choice follows its flag > environment > file rule. Afterwards warning ≤ critical, holding the two overridden thresholds. |
| Overrides.ApplyOverridesKeepsValid | main.go:164-286 | Overrides never turn a valid configuration into an invalid one. |
| Overrides.NoOverridesIsIdentity | main.go:164-286 | With no flags and no environment variables, a valid configuration comes through unchanged. |
| Credentials.IsExpired | credentials.go:80-83 | A token is expired exactly when its expiry is at most 60 000 ms away. |
| Credentials.ExpiryIsMonotone | credentials.go:80-83 | Once a token is expired it stays expired at every later time. |
| Credentials.ZeroExpiryIsExpired | credentials.go:80-83 | An expiry of 0 counts as expired at any non-negative time. |
| Credentials.LoadFromFile | credentials.go:58-77 | Success exactly when the document decodes with both tokens present, and then all three fields are copied. A read or parse failure reports its kind, and every failure leaves the store unchanged. |
| Credentials.LoadWithKeychain | credentials_darwin.go:24-37 | A keychain error or an empty keychain access token gives exactly the file load. Otherwise success, taking the access token and expiry and keeping the refresh token. |
| Credentials.KeychainHitIgnoresFile | credentials_darwin.go:34-36 | With a usable keychain entry, the credentials file makes no difference and the refresh token is kept. |
| Credentials.RefreshErrorText | credentials.go:96-112 | Every refresh error has a non-empty message. |
| Credentials.Refresh | credentials.go:86-130 | Success exactly on status 200 with a decodable body, and then both tokens are replaced. The expiry becomes now plus the lifetime in ms, 3600 s when the lifetime is 0. Each failure reports its own error: the transport reason, the HTTP status, or the decode reason. Every failure leaves the store unchanged. |
| Credentials.RefreshAndWriteBack | credentials.go:122-128 | After the refresh, the write-back panics exactly when the refresh succeeded and the credentials document is `null`. Otherwise the refresh result stands, whether or not the write succeeded. |
| Credentials.RefreshedTokenExpiry | credentials.go:113-121 | A refreshed token is already expired when issued exactly when its lifetime is given explicitly and is at most 60 s. The default hour always gives a usable token. |
| Credentials.GetAccessToken | credentials.go:164-174 | A fresh token is returned with the store unchanged. An expired one succeeds exactly when the refresh does, and hands out the refreshed token. A failure leaves the store unchanged. |
| Credentials.FreshTokenNeedsNoRefresh | credentials.go:168-173 | While the token is fresh, the refresh response makes no difference. |
| Credentials.Persist | credentials.go:133-161 | For a JSON object, the `claudeAiOauth` key is set to the current tokens and every other key is kept. An unreadable or undecodable document fails with its error and is not written. The document `null` decodes to a nil map, and the store into it panics. |
| Credentials.PersistThenLoad | credentials.go:58-77 | Loading the entry that persisting wrote restores exactly the store it was written from. |
| Icon.ValidFontName | icon.go:24-39 | True exactly for "bold", "regular", "mono", "monobold" and "bitmap". |
| Icon.ValidIndicatorName | icon_test.go:320-334 | True exactly for "pie", "bar", "arc" and "bar-proj". |
| Icon.ColorForUtilization | icon.go:94-106 | Gray exactly without a utilisation, red exactly at or above critical, yellow between warning and critical, green below both. |
| Icon.ColorMonotone | icon.go:94-106 | With ordered thresholds, more usage never gives a less severe colour. |
| Icon.RenderIcon | icon.go:109-128 | The expired icon exactly when the token expired. Else the error icon exactly on an error. Else the normal icon, which shows the five-hour usage in its colour. |
| Icon.RenderIconDependsOnFiveHourOnly | icon.go:114-125 | Two snapshots that agree on the expired flag, the error and the five-hour usage get the same icon. |
| Tray.BuildTooltip | tray.go:233-268 | The tooltip always starts with "Claude Quota". |
| Tray.ErrorTooltip | tray.go:236-238 | With an error, the tooltip is the title, the error line and the updated line, and no bucket line. |
| Tray.EmptyTooltip | tray.go:233-268 | The empty snapshot gives exactly "Claude Quota". |
| Tray.PlanIsShownLinesInOrder | tray.go:233-268 | The tooltip's line kinds are exactly the shown ones, strictly ordered: title, error, then the 5h, 7d and Sonnet 7d buckets, then the updated line. A bucket's lines appear only without an error and with its utilisation. Projection and saturation lines need their field, and the Sonnet bucket has neither. |
| Tray.TooltipFollowsPlan | tray.go:233-268 | The tooltip text is the title followed by each planned line rendered on its own line. |
| FloatOverrides.FontSizeAsWritten | main.go:177-186 | Font size as written on `float64`: a flag for which `f > 0` holds wins, else a variable for which `f <= 0` fails, else the file. |
| FloatOverrides.HaloSizeAsWritten | main.go:203-212 | Halo as written on `float64`: a flag for which `f >= 0` holds wins, else a variable for which `f < 0` fails, else the file. |
| FloatOverrides.ThresholdAsWritten | main.go:256-280 | A threshold as written on `float64`: a flag for which `f > 0` and `f <= 100` hold wins, else a variable for which neither `f <= 0` nor `f > 100` holds, else the file. |
| FloatOverrides.OrderAsWritten | main.go:282-285 | The swap happens exactly when `warning >= critical` holds under IEEE comparison. |
| FloatOverrides.ThresholdsAsWritten | main.go:256-285 | The two thresholds as computed, in one order or the other. |
| FloatOverrides.NaNWarningDefeatsOrdering | main.go:256-285 | With the warning variable set to "NaN", the warning level ends up NaN and is not at or below the critical level. |
| FloatOverrides.NonFiniteSizesAccepted | main.go:177-212 | "NaN" and "Inf" from the font-size variable, "NaN" from the halo variable, and "Inf" from either flag are accepted. |
| FloatOverrides.FontSizeCorrected | main.go:177-186 | Corrected font size: a finite value, positive when the file's is, taken from the file, the variable or the flag. |
| FloatOverrides.HaloSizeCorrected | main.go:203-212 | Corrected halo size: a finite value, non-negative when the file's is, taken from the file, the variable or the flag. |
| FloatOverrides.ThresholdsCorrected | main.go:256-285 | Corrected thresholds: always ordered, and both in (0, 100] when the file's pair is. |
| FloatOverrides.SizesAgreeOnFinite | main.go:177-212 | On finite input the size code as written computes `Overrides.OverrideFontSize` and `Overrides.OverrideHaloSize`. |
| FloatOverrides.ThresholdAgreesOnFinite | main.go:256-280 | On finite input one threshold as written computes `Overrides.OverrideThreshold`. |
| FloatOverrides.ThresholdsAgreeOnFinite | main.go:256-285 | On finite input both thresholds as written, swap included, compute the ordered pair the configuration model uses. |
| FloatOverrides.CorrectedMatchesModelOnFinite | main.go:177-285 | On finite input the corrected functions are the configuration model's overrides. |

## Left out

- Network I/O is left out: the usage request and its headers, the OAuth refresh POST and the self-updater. Their outcomes are inputs (`Quota.HttpOutcome`, `Credentials.RefreshResponse`).
- File and OS access is left out:
  - reading and writing the configuration and credentials files, including writing a default configuration when none exists;
  - the keychain `security` call;
  - locating files.

  What a read produced is an input (`Settings.ConfigRead`, `Credentials.SourceRead`).
- JSON encoding and decoding are left out. Documents are records with optional fields, and the credentials document is a map of raw values.
- RFC 3339 timestamp parsing is a parameter, not a reimplementation.
- The locale's date and clock renderings and the `%.0f` percentage are parameters (`Format.Locale`).
- Concurrency is left out: the mutexes, the poll, event and ticker goroutines, and last-writer-wins races. A fetch is a sequential transition.
- Icon rasterisation, fonts, the halo, PNG encoding and menu visibility are left out. `Icon.RenderIcon` only chooses the icon kind.
- `main()` flag parsing, signal handling and the non-macOS delegating `load` are left out.
- Logging is left out. No operation's result depends on it.
- Projection.ComputeProjection: uses exact real arithmetic, with no float64 rounding of the quotient.
- Projection.GateIsRedundant: holds only in the model, where durations do not overflow. In Go, `time.Duration(float64(timeElapsed) * (100 - current) / current)` at quota.go:212 overflows int64 for tiny positive usage and becomes the minimum duration, so the saturation lands before now. The gate at quota.go:137 then suppresses it because the projection is below 100 %.
- Projection.ComputeSaturationTime: the lower bound is `now <= saturation`, not `now < saturation`. The truncation to whole nanoseconds can give a zero duration when the exact one is below a nanosecond. `time.Duration` overflow of very large quotients is not modelled.
- Credentials.Refresh: uses one clock reading for the expiry check and the new expiry, where the source reads the clock twice. The int64 overflow of `expiresIn * 1000` is not modelled. The write-back after a successful refresh is modelled by `Credentials.RefreshAndWriteBack`. A failed write is only logged. A `null` credentials document makes the write panic, and no `recover` stops that from ending the process. `Credentials.Refresh` itself does not return that panic.
- Credentials.GetAccessToken: the store's mutex is not modelled. It refreshes through `Credentials.Refresh` without the write-back, so it hands out a token even where a `null` credentials document would end the process (`Credentials.RefreshAndWriteBack`).
- Quota.Truncate: works on a sequence of runes. Go's `[]rune(s)` turns each invalid UTF-8 byte into U+FFFD, so for such input the Go result is not a prefix of the original bytes.
- Client.FetchWithStore: `UnixMilli` rounds down to whole milliseconds, as Go's does, before the epoch as well. Wall-clock skew between the two clock readings of a cycle is not modelled.
- Format.FormatResetDate: the date text is whatever the locale renders. Only its emptiness is constrained.
- Tray.BuildTooltip: the clock rendering of the updated line is a locale parameter.
- Overrides.OverrideFontSize: numbers are exact reals, so the NaN and ±Inf that Go's `strconv.ParseFloat` and the float flags accept are not inputs here. `FloatOverrides.FontSizeAsWritten` covers them.
- Overrides.OverrideHaloSize: the same restriction to finite numbers. `FloatOverrides.HaloSizeAsWritten` covers the non-finite cases.
- Overrides.OverrideThreshold: the same restriction to finite numbers. `FloatOverrides.ThresholdAsWritten` covers the non-finite cases.
- Overrides.ApplyOverrides: warning ≤ critical holds for finite input only. With a NaN variable the Go code leaves them unordered (`FloatOverrides.NaNWarningDefeatsOrdering`).
- Overrides.ApplyOverridesKeepsValid: holds for finite input only. In Go a NaN or +Inf font or halo size, or a NaN threshold, yields an invalid configuration (see "## Findings").
- FloatOverrides.FontSizeAsWritten: finite values are exact reals. Rounding to the nearest `float64` is not modelled.
- Quota.Fetch: the request-construction error path and the transport error path are both modelled, but their messages are inputs.

## Findings

| source | as written | input that shows it | evidently intended | confidence | as-written member | corrected member |
|---|---|---|---|---|---|---|
| main.go:256-285 | The threshold variables are rejected only when `f <= 0` or `f > 100` holds, and NaN fails both tests. The closing swap runs only when `warning >= critical` holds, which is false for NaN. | `CLAUDE_QUOTA_WARNING_THRESHOLD=NaN` with the default file | A non-number is ignored like any unparseable value, and warning ≤ critical afterwards | high; not executed | FloatOverrides.ThresholdsAsWritten, FloatOverrides.NaNWarningDefeatsOrdering | FloatOverrides.ThresholdsCorrected |
| main.go:177-212 | The font-size and halo variables are rejected only when `f <= 0` or `f < 0` holds, so NaN and +Inf pass. The flags pass +Inf through `f > 0` and `f >= 0`. | `CLAUDE_QUOTA_FONT_SIZE=NaN`, `CLAUDE_QUOTA_HALO_SIZE=NaN`, `-font-size=Inf` or `-halo-size=Inf` | Only finite sizes are accepted, positive for the font and non-negative for the halo | high; not executed | FloatOverrides.FontSizeAsWritten, FloatOverrides.HaloSizeAsWritten, FloatOverrides.NonFiniteSizesAccepted | FloatOverrides.FontSizeCorrected, FloatOverrides.HaloSizeCorrected |
