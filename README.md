# chiki utils: client tags, relative times, image formats and strip

A Dafny model of the logic in `chiki/utils.py` of the chiki web toolkit. It
covers four helpers.

- **Client-tag ("spm") codec.** A request carries a dot-separated tag of small
  integers: os, platform, channel, version and a reserved field.
  - `parse_spm` decodes a tag into exactly five integers and never fails.
  - `get_spm` returns the tag the request names. If there is none, it builds
    one from the user agent.
  - `get_os`, `get_platform`, `get_channel` and `get_version` read one field each.
- **Relative-time humanizer `datetime2best`.** It puts the signed distance
  between an instant and "now" into one of twelve Chinese phrases, such as
  `3分钟前` ("3 minutes ago") and `2天后` ("in 2 days").
- **`get_format`.** It maps an image file name's extension to a format name.
- **`strip`.** It trims every string inside nested dictionaries and lists.

Modules (one per component, plus two shared ones):

- `Wrappers` (`wrappers.dfy`): `Option`.
- `Text` (`text.dfy`): the Python string builtins these helpers use, each with its laws:
  - ASCII `lower()`;
  - substring `in`;
  - `replace`;
  - `split` and `join` on one character;
  - `int()` on a digit run and `str()` of a natural;
  - `strip()`.
- `Spm` (`spm.dfy`): `parse_spm`, `get_spm` and the four accessors.
  - `Decode` is the reference definition of a decoded tag.
  - `ParseSpm` is the imperative version, with the padding loop. It is proved equal to `Decode`.
  - `Classify` is the for/else scan. It is proved equal to the recursive `ScanFrom`.
- `RelativeTime` (`relative_time.dfy`):
  - `Bucket` is the if/elif chain of `datetime2best`. It returns a `Phrase(count, unit, direction)`.
  - `Render` fills the Chinese template.
  - `DateTime2Best(input, now)` composes them.
- `ImageFormat` (`image_format.dfy`): `get_format`.
- `Strip` (`strip.dfy`): `strip` over a JSON-like `Json` datatype.

Modelling decisions:

- **Request values are parameters.** `get_spm` reads `request.args.get('spm')`
  and `request.args.get('User-Agent', '')`. In the model these are
  `explicit: Option<string>` and `ua: string`. The code reads the user agent
  from the query arguments, not from a header.
- **The absent tag.** `parse_spm` takes an `Option<string>`. `None` and `""` are
  both falsy, so both decode to zeros.
- **Instants** are whole microseconds on one clock. `now` is a parameter. The
  distance is `d = (now - input) / 1000000`. Dafny's `/` rounds down for a
  positive divisor, and so does a timedelta's `days * 86400 + seconds`.
- **Lower-casing** is ASCII. **Whitespace** for `strip()` is ASCII space, tab,
  newline, carriage return, vertical tab and form feed.
- **The token pattern.** `^(\d+\.)+\d+$` is the predicate `IsToken`: splitting on `.` gives
  two or more pieces, each a non-empty run of the digits 0-9.

Behaviour of the code that the model keeps:

- **Unmatched scan code.** When nothing matches, the for/else appends the last
  loop `index + 1`, which is `len(list)`: 5 for operating systems and 3 for
  platforms. This is the same code `mac` or `qq` gets.
- **Number of fields.** A synthesised tag has four fields (`o.p.1001.0`). It
  decodes to five, because decoding pads with zeros.
- **Case.** The `unknown` substitution is case-sensitive.
- **Day count for future instants.** It is `-(days + 1)`, so it is one less than
  the ceiling of the distance in days. An instant exactly two days ahead reads
  `1天后`. One exactly two days back reads `2天前`. An instant exactly 30 days
  ahead reads `29天后`. `BucketBoundaries` and `BucketFuture` state this.
- **Future bounds.** On the future side, a bucket includes its upper end. A
  distance of exactly 60 s reads `60秒后`, but 60 s back reads `1分钟前`.

## Model

| member | source | states |
|---|---|---|
| Text.Lower | chiki/utils.py:137 | lower-casing keeps the length, moves each upper-case ASCII letter 32 code points up to its lower-case form, leaves no upper-case ASCII letter and keeps every other character |
| Text.Replace | chiki/utils.py:121 | `replace` by a replacement no longer than the pattern never lengthens the string, and, for a non-empty replacement, a non-empty string stays non-empty |
| Text.ReplaceFirst | chiki/utils.py:121 | the first occurrence of the pattern becomes the replacement, the text before it is kept, and the rest is replaced in turn |
| Text.ReplaceAbsent | chiki/utils.py:121 | `replace` leaves a string without an occurrence of the pattern unchanged |
| Text.ReplaceRemovesAll | chiki/utils.py:121 | after replacing `unknown` (any pattern) by a character foreign to it, no occurrence is left |
| Text.ReplaceIdempotent | chiki/utils.py:121 | that replacement is idempotent |
| Text.Split | chiki/utils.py:123 | `split('.')` gives at least one piece and no piece holds the separator |
| Text.JoinSplit | chiki/utils.py:30 | joining the pieces of a split gives back the string |
| Text.Join | chiki/utils.py:156 | a join starts with its first piece and holds the separator when there are two or more pieces |
| Text.SplitJoin | chiki/utils.py:156 | splitting a join of separator-free pieces gives back the pieces |
| Text.NatToString | chiki/utils.py:156 | `str()` of a natural is a non-empty run of decimal digits, without a leading zero; 0 is exactly `"0"` |
| Text.Contains | chiki/utils.py:140-147 | `name in ua` needs `name` to be no longer than `ua`, and holds when `ua` starts with `name` |
| Text.DecimalValue | chiki/utils.py:123 | `int()` of a digit run is 0 exactly when every digit is 0 |
| Text.DecimalRoundTrip | chiki/utils.py:123 | `int(str(n)) == n` |
| Text.Trim | chiki/utils.py:60 | `strip()` returns a slice of the string with only whitespace cut from either end, and the result is trimmed |
| Spm.Truthy | chiki/utils.py:120-131 | Python's `if spm:` holds exactly for a present token other than `""` |
| Spm.Normalize | chiki/utils.py:120-121 | a truthy token stays non-empty and holds no `unknown` after the substitution; a falsy one is empty |
| Spm.NormalizeToken | chiki/utils.py:120-121 | a well-formed token without the letter `u` is left as it is |
| Spm.IsToken | chiki/utils.py:122 | a token that matches the pattern holds a dot |
| Spm.NonDigitStartNotToken | chiki/utils.py:122 | a token whose first character is not a digit does not match the pattern |
| Spm.Decode | chiki/utils.py:119-126 | a decoded tag always has exactly five fields |
| Spm.ParseSpm | chiki/utils.py:119-126 | the padding loop returns five fields, equal to the reference decoding: the first min(k,5) fields of a valid token, then zeros; the zero tag otherwise |
| Spm.DecodeFalsy | chiki/utils.py:120-126 | an absent or empty token decodes to (0,0,0,0,0) |
| Spm.DecodeUnknownSubstituted | chiki/utils.py:120-121 | replacing `unknown` by `0` beforehand does not change the decoding |
| Spm.DecodeJoined | chiki/utils.py:122-125 | a token of k >= 2 naturals decodes to its first min(k,5) values followed by zeros |
| Spm.DecodeRoundTrip | chiki/utils.py:122-125 | joining five naturals with dots and decoding gives them back |
| Spm.DecodeShortExamples | chiki/utils.py:119-126 | `None`, `""` and the bare integer `"7"` decode to zeros |
| Spm.DecodeMalformedExamples | chiki/utils.py:122 | `"a.b"` decodes to zeros |
| Spm.DecodeTrailingDotExample | chiki/utils.py:122 | `"1."` decodes to zeros |
| Spm.DecodeEmptyFieldExample | chiki/utils.py:122 | `"1..2"` decodes to zeros |
| Spm.UnknownSubstitutedExample | chiki/utils.py:120-121 | `"unknown.3"` becomes `"0.3"` |
| Spm.DecodeUnknownExample | chiki/utils.py:121-125 | `"unknown.3"` decodes to (0,3,0,0,0) |
| Spm.UpperUnknownUnchanged | chiki/utils.py:120-121 | `"UNKNOWN.3"` is left as it is by the substitution |
| Spm.DecodeUpperUnknownExample | chiki/utils.py:121-122 | `"UNKNOWN.3"` decodes to zeros: the substitution is case-sensitive |
| Spm.ScanFrom | chiki/utils.py:139-151 | the code of a for/else scan lies between the start position + 1 and the list length |
| Spm.ScanFromIff | chiki/utils.py:139-151 | the scan's code is k+1 exactly when no earlier name occurs and names[k] occurs or k is the last position |
| Spm.Classify | chiki/utils.py:139-144 | the for/else loop, with the loop variable reused after the loop, appends exactly the scan's code |
| Spm.GetSpm | chiki/utils.py:129-156 | a non-empty explicit token is returned verbatim; otherwise the token is the synthesised os.platform.1001.0 token of the user agent |
| Spm.OsCodeIff | chiki/utils.py:135-144 | the os code is 1 + the first position of `ios, android, windows, linux, mac` occurring in the lower-cased agent, and 5 when none does |
| Spm.PlatformCodeIff | chiki/utils.py:136-151 | the platform code is 1 + the first position of `micromessenger, weibo, qq` occurring, and 3 when none does |
| Spm.AndroidBeforeLinux | chiki/utils.py:139-142 | list order wins: an agent naming `android` but not `ios` has os code 2, even if it also names `linux` |
| Spm.OsCodeUnmatched | chiki/utils.py:143-144 | an agent naming no listed system gets os code 5 |
| Spm.PlatformCodeUnmatched | chiki/utils.py:150-151 | an agent naming no listed client gets platform code 3 |
| Spm.OsCode | chiki/utils.py:135-144 | the os code of an agent lies in 1..5 |
| Spm.PlatformCode | chiki/utils.py:136-151 | the platform code of an agent lies in 1..3 |
| Spm.JoinNats | chiki/utils.py:156 | `'.'.join` of two or more `str()` numerals is a well-formed token without the letter `u` |
| Spm.SynthesizedToken | chiki/utils.py:153-156 | a synthesised token decodes to (os, platform, 1001, 0, 0) |
| Spm.GetOs | chiki/utils.py:167-168 | field 0 of the decoded explicit token, or the os code (1..5) of the agent |
| Spm.GetPlatform | chiki/utils.py:171-172 | field 1 of the decoded explicit token, or the platform code (1..3) of the agent |
| Spm.GetChannel | chiki/utils.py:163-164 | field 2 of the decoded explicit token, or 1001 |
| Spm.GetVersion | chiki/utils.py:159-160 | field 3 of the decoded explicit token, or 0 |
| RelativeTime.DeltaSeconds | chiki/utils.py:75-77 | the distance in whole seconds is `now - input` rounded down: d seconds <= now - input < d + 1 seconds |
| RelativeTime.Bucket | chiki/utils.py:76-101 | the phrase says 后 exactly when the distance is negative |
| RelativeTime.Render | chiki/utils.py:79-101 | the text starts with the decimal count and ends with 前 for the past and 后 for the future |
| RelativeTime.DateTime2Best | chiki/utils.py:74-101 | the text starts with a digit and ends with 后 exactly when the instant is after `now` |
| RelativeTime.BucketPast | chiki/utils.py:76-101 | for d >= 0 the phrase says 前; its unit is the largest whose length fits into d; the count is the number of whole units in d |
| RelativeTime.BucketFuture | chiki/utils.py:76-101 | for d < 0 the phrase says 后; the unit's bounds include the upper end; the count is whole units below a day, and is derived from the distance in whole days rounded up above a day |
| RelativeTime.BucketCountRange | chiki/utils.py:78-101 | every count lies in its template's range: 1..24 hours, 1..60 minutes or seconds ahead, 0..59 seconds, 1..59 minutes, 1..23 hours back, 1..29 days, 1..12 months, years >= 1 |
| RelativeTime.RenderInjective | chiki/utils.py:79-101 | the rendered text determines count, unit and direction |
| RelativeTime.BucketBoundaries | chiki/utils.py:76-97 | exact phrases at the day boundaries: 24 hours ahead, 1 day ahead, 2 days ahead, 23 hours back, 1 minute back, 60 seconds ahead, 30 days |
| RelativeTime.DateTime2BestExamples | chiki/utils.py:74-89 | 30 s back reads `30秒前`, 30 s ahead `30秒后`, 1 µs ahead `1秒后` |
| RelativeTime.DateTime2BestHoursDaysExamples | chiki/utils.py:74-97 | 90 min back reads `1小时前`, 2 days back `2天前` |
| RelativeTime.DateTime2BestMonthsYearsExamples | chiki/utils.py:74-101 | 40 days back reads `1个月前`, 400 days back `1年前` |
| ImageFormat.Extension | chiki/utils.py:30 | the last piece of `split('.')` holds no dot |
| ImageFormat.ExtensionIsLastSegment | chiki/utils.py:30 | the extension is the dot-free tail of the name, preceded by a dot exactly when the name has one, and the whole name when it has no dot |
| ImageFormat.ExtensionAfterLastDot | chiki/utils.py:30 | whatever precedes the last dot, the extension is the text after it |
| ImageFormat.GetFormat | chiki/utils.py:29-35 | the result is one of jpg, gif, bmp, png, ico or ''; it is jpg exactly for jpg and jpeg; gif, bmp, png and ico are returned as themselves; any other non-empty result is the extension itself |
| ImageFormat.GetFormatJpeg | chiki/utils.py:31-32 | a `.jpeg` name is `jpg` |
| ImageFormat.GetFormatNoDotExample | chiki/utils.py:30-34 | a name without a dot is its own extension: `png` is `png` |
| ImageFormat.GetFormatLastDot | chiki/utils.py:30-35 | a `.tar.gz` name is '' |
| ImageFormat.GetFormatUpperCase | chiki/utils.py:33-35 | a `.PNG` name is '': case is not folded |
| ImageFormat.GetFormatQuery | chiki/utils.py:33-35 | a `.png?x=1` name is '' |
| Strip.Falsy | chiki/utils.py:52 | `not val` holds exactly for null, false, 0 and the empty string, list and dict |
| Strip.Strip | chiki/utils.py:51-61 | falsy values and scalars come back unchanged; a dict keeps its keys in order and the values under skipped keys; a list keeps its length; a string comes back with surrounding whitespace trimmed |
| Strip.StripItems | chiki/utils.py:58 | the list comprehension strips each element, without skipped keys |
| Strip.StripEntries | chiki/utils.py:56 | the dict comprehension keeps each key and strips each value not under a skipped key |
| Strip.StripTrimsAll | chiki/utils.py:51-61 | after stripping without skipped keys, no string anywhere inside has surrounding whitespace |
| Strip.StripTrimsOutsideSkipped | chiki/utils.py:55-56 | after `strip(val, *args)`, everything outside the skipped top-level keys is trimmed |
| Strip.StripKeepsTrimmed | chiki/utils.py:51-61 | a value whose strings are already trimmed is returned unchanged |
| Strip.StripIdempotent | chiki/utils.py:51-61 | stripping twice with the same skipped keys equals stripping once |

## Left out

- `down`: it fetches a URL over HTTP and returns the content as a `StringIO` stream.
- `url2image`: it returns `dict(stream=down(url, source=source), format=get_format(url))`, or `None` for an empty URL. Only its `get_format` part is modelled.
- `today`, and the `datetime.now()` call in `datetime2best`: these read the wall clock. `now` is a parameter.
- `time2best`: an input that is not a `datetime` (an int or float timestamp) is converted to local time with `datetime.fromtimestamp`; a `datetime` is passed through unchanged. Either way it then calls `datetime2best`. The model does not cover time zones or floats.
- `err_logger`: a decorator that catches any exception of the wrapped call and logs its traceback to the Flask app's logger.
- `retry`: at decoration time it calls `func()` up to `times` times, stops after the first call that raises nothing, swallows every exception with `pass` and logs nothing; it returns `func` unchanged.
- `get_ip`, `is_ajax`, `is_api` and `is_json`: they read Flask's request headers and arguments and the app configuration.
- `json_success` and `json_error`: they set `code` to 0 or -1 in the keyword arguments and return a Flask `jsonify` response.
- `tpl_data`: it builds a dict that maps each keyword to `dict(value=..., color=...)`.
- `is_empty`, `str2datetime`, `randstr`, `AttrDict` and `get_module`: these need file I/O, `strptime`, randomness, attribute magic or `sys.modules`.
- Spm.ParseSpm: the source returns a list for a valid token and a tuple `(0, 0, 0, 0, 0)` otherwise. The model returns a sequence in both cases. Indexing them gives the same values.
- Spm.IsToken: Python's `$` also matches before a trailing newline, and `int()` skips surrounding whitespace, so the source accepts `"1.2\n"`. The model reads `$` as the end of the string.
- RelativeTime.Render: the Python 2 templates are UTF-8 byte strings, so `datetime2best` returns the UTF-8 bytes of the phrase. The model returns the phrase as Unicode characters.
- Text.Lower and Text.Trim: Unicode case mapping and Unicode whitespace are not modelled. Both work on ASCII only.
- Strip.Strip: Python 2 dicts are unordered. The model keeps the entries in iteration order, and only the set of keys is meaningful. Dict keys are strings. Numbers are integers, so a float `0.0` (falsy) is not modelled. Any other object without a `strip` method stands in as `Null`, `Bool` or `Num`.
