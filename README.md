# Theme provider and bookmark-screen helpers

A Dafny model of the two pieces of logic in this reading-list app prototype.

**The theme provider** (`contexts/theme-context.tsx`, module `ThemeContext`).
It holds a user preference `mode` (`light`, `dark` or `system`) and an
`isLoaded` flag. At mount it reads the key `@theme_mode` from persistent
storage. It adopts the stored string only when it is exactly one of the three
mode names, and it becomes loaded whatever the read gave. It withholds its
context value until it is loaded (the render gate). `setMode` changes the
mode at once and writes it back under the same key. The resolved theme
follows an explicit mode, or the platform's colour scheme for `system`,
with `light` as the fallback. `useTheme` throws outside a provider.

The provider is the class `ThemeContext.ThemeProvider`:
- its fields are `mode`, `isLoaded` and `storage`, a map that stands for the
  persistent key-value store;
- the load effect is the method `Load`, and `setMode` is the method
  `SetMode`;
- the value handed to the subtree is the function `Value`.

Three scenario methods drive fresh providers:
- `SetModeThenRestart`: restart over the same storage;
- `SetModeTwice`: calling `setMode` twice;
- `MountAndLoad`: the render gate followed by `useTheme`.

**The bookmark-screen helpers** (`app/bookmark.tsx`, module `Bookmark`):
- `formatDuration`;
- the choice of the show fixture from the route parameter, with fallback to
  `sharp-tech`;
- the first non-null episode;
- the cover-image fallback;
- the URL a tapped description link is opened with.

`formatDuration` gets a reader, `ParseClock`. With it the model proves that
the label reads back as the whole seconds of the duration, that labels are
injective on whole seconds, and what the label's layout is.

Module `JsText` models the JavaScript built-ins these helpers use on
non-negative integers and strings:
- `Number.prototype.toString`;
- `padStart`;
- `startsWith`.

Module `Wrappers` holds `Option` and `Result`.

## Model

| member | source | states |
|---|---|---|
| ThemeContext.ModeName | contexts/theme-context.tsx:5 | every mode is written as one of the three names the load step accepts |
| ThemeContext.ParseMode | contexts/theme-context.tsx:27-28 | a stored value is adopted exactly when it is present and one of `light`, `dark`, `system`; the adopted mode is the one with that name |
| ThemeContext.ParseModeName | contexts/theme-context.tsx:27-36 | the string `setMode` writes for a mode parses back to that mode |
| ThemeContext.Resolve | contexts/theme-context.tsx:40-41 | an explicit mode resolves to itself; `system` resolves to the platform scheme, or `light` when there is none |
| ThemeContext.ResolveExplicitIgnoresSystem | contexts/theme-context.tsx:40-41 | for `light` and `dark` the resolved theme does not depend on the platform scheme |
| ThemeContext.LoadedMode | contexts/theme-context.tsx:24-31 | after the load, the mode is the stored mode when the read succeeds and holds a mode name; otherwise it stays `system` (absent key, unknown string, failed read) |
| ThemeContext.UseTheme | contexts/theme-context.tsx:56-61 | `useTheme` fails exactly when there is no provider value, with the error whose message is `useTheme must be used within a ThemeProvider`, and otherwise returns that value unchanged |
| ThemeContext.ThemeProvider.constructor | contexts/theme-context.tsx:20-21 | a provider starts in mode `system`, not loaded |
| ThemeContext.ThemeProvider.Load | contexts/theme-context.tsx:24-32 | the load effect leaves the provider loaded whether the read succeeds or fails, with mode `LoadedMode` of the storage |
| ThemeContext.ThemeProvider.SetMode | contexts/theme-context.tsx:34-37 | `setMode(m)` makes `mode == m` at once and stores the name of `m` under `@theme_mode`; every other key keeps its value; the provider stays loaded |
| ThemeContext.ThemeProvider.Value | contexts/theme-context.tsx:45-50 | the provider exposes nothing while not loaded, and once loaded exposes its mode with that mode's resolution |
| ThemeContext.SetModeThenRestart | contexts/theme-context.tsx:24-37 | after `setMode(m)`, a fresh provider over the same storage loads `m`; the storage gains exactly the theme key |
| ThemeContext.SetModeTwice | contexts/theme-context.tsx:34-37 | a second `setMode(m)` leaves both the exposed value and the storage as the first call left them |
| ThemeContext.MountAndLoad | contexts/theme-context.tsx:43-61 | a freshly mounted provider exposes nothing; after its load, `useTheme` succeeds with the loaded mode and its resolution |
| JsText.DecimalString | app/bookmark.tsx:65 | `toString` of a non-negative integer is a non-empty digit string, a single digit exactly below 10, with no leading zero except for 0 |
| JsText.DecimalRoundTrip | app/bookmark.tsx:65 | the decimal numeral reads back as the number |
| JsText.DecimalStringInjective | app/bookmark.tsx:65 | distinct numbers have distinct numerals |
| JsText.PadStart | app/bookmark.tsx:65 | `padStart` yields the longer of the string and the width; the string is its tail and the fill character precedes it |
| Bookmark.ClockOf | app/bookmark.tsx:60-62 | minutes and seconds are below 60, and `hours*3600 + minutes*60 + seconds` is the total seconds |
| Bookmark.ClockOfUnique | app/bookmark.tsx:60-62 | the split is the only one with minutes and seconds below 60 |
| Bookmark.Pad2Shape | app/bookmark.tsx:65 | below 100, the padded field is exactly two digits, starts with `0` exactly below 10, and reads back as the number |
| Bookmark.HoursLabelRoundTrip | app/bookmark.tsx:65 | the `H:MM:SS` label reads back as its seconds |
| Bookmark.MinutesLabelRoundTrip | app/bookmark.tsx:67 | the `M:SS` label reads back as its seconds |
| Bookmark.FormatClockRoundTrip | app/bookmark.tsx:64-67 | either label of a clock reading reads back as its seconds |
| Bookmark.FormatDurationRoundTrip | app/bookmark.tsx:58-68 | the duration label reads back as the whole number of seconds in the milliseconds |
| Bookmark.FormatDurationInjective | app/bookmark.tsx:58-68 | two durations get the same label exactly when they have the same whole seconds |
| Bookmark.FormatDurationTruncates | app/bookmark.tsx:59 | sub-second milliseconds never change the label |
| Bookmark.HoursLabelLayout | app/bookmark.tsx:65 | the hours label is the hour numeral without a leading zero, then `:` and two digits, twice |
| Bookmark.MinutesLabelLayout | app/bookmark.tsx:67 | the minutes label is the unpadded minute numeral, `0` only for zero minutes, then `:` and two digits |
| Bookmark.ClockLeadingField | app/bookmark.tsx:60-64 | hours are shown exactly from 3600 seconds on; below that, the minute field is `0` exactly below 60 seconds |
| Bookmark.FormatClockLayout | app/bookmark.tsx:64-67 | a clock reading is printed as `H:MM:SS` from one hour on, as `M:SS` below |
| Bookmark.FormatDurationLayout | app/bookmark.tsx:58-68 | from 3600000 ms on, the label has two colons and the hour numeral first; below, one colon and the unpadded minutes, `0` exactly below 60000 ms |
| Bookmark.Pad2 | app/bookmark.tsx:65 | `n.toString().padStart(2, '0')`; its contract is `Bookmark.Pad2Shape`: below 100, exactly two digits, `0` first exactly below 10, value kept |
| Bookmark.HoursLabel | app/bookmark.tsx:65 | the `H:MM:SS` template; its contracts are `Bookmark.HoursLabelRoundTrip` (reads back as its seconds) and `Bookmark.HoursLabelLayout` (digits and colons) |
| Bookmark.MinutesLabel | app/bookmark.tsx:67 | the `M:SS` template; its contracts are `Bookmark.MinutesLabelRoundTrip` and `Bookmark.MinutesLabelLayout` |
| Bookmark.FormatClock | app/bookmark.tsx:64-67 | the `hours > 0` choice between the two templates; its contracts are `Bookmark.FormatClockRoundTrip` and `Bookmark.FormatClockLayout` |
| Bookmark.FormatDuration | app/bookmark.tsx:58-68 | `formatDuration`; its contracts are `Bookmark.FormatDurationRoundTrip`, `Bookmark.FormatDurationInjective`, `Bookmark.FormatDurationTruncates` and `Bookmark.FormatDurationLayout` |
| Bookmark.LookupFixture | app/bookmark.tsx:185 | the fixture named by the route parameter when the table has it; the `sharp-tech` fixture when the parameter is absent or unknown |
| Bookmark.ReadProperty | app/bookmark.tsx:29-35 | reading a key of the fixture object gives its own entry when there is one, an inherited member for an `Object.prototype` name, `undefined` otherwise |
| Bookmark.PodcastDataAsWritten | app/bookmark.tsx:185 | the lookup as written fails exactly when the key is not a fixture but is an `Object.prototype` name |
| Bookmark.PodcastDataAsWrittenAgrees | app/bookmark.tsx:185 | for every other route parameter, the lookup as written gives the `LookupFixture` result |
| Bookmark.ConstructorSkipsFallback | app/bookmark.tsx:29-35 | on the screen's five-show table, the route parameter `constructor` makes the lookup as written fail, where `LookupFixture` gives `sharp-tech` |
| Bookmark.FirstNonNull | app/bookmark.tsx:188 | `find(item => item !== null)` finds nothing exactly when every item is null |
| Bookmark.FirstNonNullAt | app/bookmark.tsx:188 | a non-null item preceded only by nulls is the one found |
| Bookmark.FirstNonNullIsFirst | app/bookmark.tsx:188 | when something is found, it is a non-null item at some index, and every earlier item is null |
| Bookmark.FirstImageUrl | app/bookmark.tsx:191 | `images[0]?.url` is the first image's URL, and is absent exactly for an empty list |
| Bookmark.CoverImage | app/bookmark.tsx:192 | the cover is the episode's first image, else the show's first image; it is absent only when both lists are empty |
| Bookmark.ScreenHeader | app/bookmark.tsx:185-192 | the header is built from the show `LookupFixture` gives: the first non-null episode, show name, publisher, show image and cover; its duration label is `FormatDuration` of the episode and reads back as the episode's whole seconds; there is no header exactly when the show has no non-null episode |
| Bookmark.LinkUrl | app/bookmark.tsx:286 | an href starting with `http` is kept; any other gets the prefix `https://`; the result always starts with `http` |
| Bookmark.LinkUrlIdempotent | app/bookmark.tsx:286 | normalising twice is the same as normalising once, and the href is always the tail of the result |
| JsText.StartsWith | app/bookmark.tsx:286 | `startsWith`: the prefix is no longer than the string and is its beginning; used by the contracts of `Bookmark.LinkUrl` and `Bookmark.LinkUrlIdempotent` |

## Left out

- Rendering is not modelled: JSX, style sheets, entry animations, icons, badges and buttons. Both screens are UI framework wiring.
- `formatDate` (app/bookmark.tsx:70-77) is not modelled. It depends on the locale rules of `toLocaleDateString`.
- The regular-expression cleanup of the episode's HTML description (app/bookmark.tsx:270-271) is not modelled. Only the href decision of the link handler is modelled; opening the URL (`Linking.openURL`) is platform I/O.
- AsyncStorage is a synchronous map. The load's promise becomes the `readFails` input of `Load`.
- `ThemeContext.ThemeProvider.SetMode`: the fire-and-forget write always lands in the map. A write that fails, leaving the old stored value, is not modelled.
- `ThemeContext.ThemeProvider.Load` requires a provider that is not yet loaded, because the mount effect has empty dependencies and runs once. A load racing with an early `setMode` cannot happen, because `setMode` is reachable only through the context value, which is withheld until the load ends.
- `ThemeContext.UseTheme` models the thrown error as a `Failure` result, not as a precondition. The misuse case is part of the model. React's context lookup is the `Option` argument.
- The platform colour scheme of `useColorScheme` is the `systemScheme` input, `None` when the platform reports none.
- `setMode` in the context value is not a field of `ThemeContextValue`. It is the `SetMode` method of the provider that produced the value.
- constants/theme.ts (design tokens), app/_layout.tsx (navigation theme choice) and hooks/use-color-scheme.ts (a projection of `resolvedTheme`) are not part of this model.
- `Bookmark.FormatDuration`: the duration is a non-negative integer number of milliseconds. JavaScript floating point is not modelled: fractional or negative durations, values past 2^53, and the exponent notation `toString` gives to very large numbers.
- Fixture contents are abstract. The table is a map from show id to `Show` that contains `sharp-tech`. An episode lists only the fields the helpers read.
- `Bookmark.ScreenHeader`: when the show has no non-null episode, the source casts `undefined` to an episode and throws on `episode.images`. The model returns `None` there.
- `Bookmark.ScreenHeader` builds on the corrected `Bookmark.LookupFixture` of the finding below, so for a route parameter that names an `Object.prototype` member (such as `constructor`) it gives the `sharp-tech` header. The source throws a `TypeError` at app/bookmark.tsx:188 there; that behaviour is `Bookmark.PodcastDataAsWritten`.

## Findings

| source | as written | input that shows it | evidently intended | confidence | as-written member | corrected member |
|---|---|---|---|---|---|---|
| app/bookmark.tsx:185 | the fixture table is a plain object literal, so indexing it with a name inherited from `Object.prototype` yields that member; `??` does not fall back, and reading `.episodes.items` of it throws | route parameter `fixtureId` = `constructor` (likewise `toString`, `valueOf`, `__proto__`, …) | any id that is not one of the table's own shows falls back to `sharp-tech` | medium, not executed | Bookmark.PodcastDataAsWritten, Bookmark.ConstructorSkipsFallback | Bookmark.LookupFixture |
