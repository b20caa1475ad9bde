# Rune-level string analysis of the Go basic-types lessons

This project models the string analysis in two Go programs of the learn-go
repository:

- `lessons/02-basic-types/exercises/strings/main.go`. This is the strings exercise. It has
  `reverseString`, which copies a string into a rune slice and swaps the two
  ends inward while `i < j`. It also has `countVowels`, which counts the runes that occur
  in a 30-rune literal: ten Cyrillic and five Latin vowels, each in both cases.
  Its `main` also reports the length of the line in runes.
- `examples/strings/main.go`. This is the earlier version. Its `main` has the same
  two-pointer reversal written inline, and a count over the 10 Latin vowels only.

A Go string is modelled as the sequence of runes that `[]rune(s)` or `range s`
yields. That sequence is a `seq<char>`, one element per rune. A rune set written as a
Go string literal and queried with `strings.ContainsRune` is a `seq<char>`
queried with `in`.

Modules:

- `Runes` (`runes.dfy`) holds the reference meanings that both programs share:
  - `Reverse` is the reversed sequence.
  - `CountIn` is the one-pass count of the runes that belong to a set.
  - `Positions` is the set of positions whose rune is in the set. It is an independent reference for the count.
  - The module also holds the lemmas relating these.
- `StringsLesson` (`strings_lesson.dfy`) holds the exercise's vowel set, the two-pointer
  reversal on an `array<char>` with its loop invariant, the counting loop, and
  the rune length.
- `StringsExample` (`strings_example.dfy`) holds the example's entry point without its console I/O.
  It also holds the Latin-only counting loop and the relation between the two vowel sets.

## Model

| member | source | states |
|---|---|---|
| Runes.Reverse | lessons/02-basic-types/exercises/strings/main.go:8-13 | reversal keeps the rune length and puts the rune at position n-1-k of the input at position k of the result |
| Runes.CountIn | lessons/02-basic-types/exercises/strings/main.go:18-24 | the number of matching runes never exceeds the rune length of the input |
| Runes.ReverseInvolution | lessons/02-basic-types/exercises/strings/main.go:8-13 | reversing twice gives back the original rune sequence |
| Runes.ReversalIsReverse | lessons/02-basic-types/exercises/strings/main.go:8-13 | any result of the same length whose k-th rune is the input's (n-1-k)-th is exactly the reference reversal, so the swap loop computes `Reverse` |
| Runes.ReversalTwice | examples/strings/main.go:17-20 | applying the swap loop's promise twice gives back the original rune sequence |
| Runes.ReverseShortUnchanged | lessons/02-basic-types/exercises/strings/main.go:10 | an empty or one-rune input is its own reversal, since the guard `i < j` fails at once |
| Runes.CountIsPositionCount | lessons/02-basic-types/exercises/strings/main.go:16-24 | the one-pass count equals the number of positions whose rune is in the set |
| Runes.CountZeroIff | lessons/02-basic-types/exercises/strings/main.go:18-24 | the count is zero exactly when no rune of the input is in the set, so the empty input counts zero |
| Runes.CountFullIff | lessons/02-basic-types/exercises/strings/main.go:18-24 | the count equals the rune length exactly when every rune is in the set |
| Runes.CountAppend | lessons/02-basic-types/exercises/strings/main.go:19-23 | the count of a concatenation is the sum of the counts of its parts |
| Runes.CountReverse | lessons/02-basic-types/exercises/strings/main.go:8-24 | reversing a string does not change how many of its runes are in the set |
| Runes.CountMonotone | examples/strings/main.go:24-30 | counting against a set that contains another set never gives a smaller count |
| StringsLesson.ReverseString | lessons/02-basic-types/exercises/strings/main.go:8-13 | the two-pointer swap on the rune array returns a result of the same length whose k-th rune is the input's (n-1-k)-th; the loop keeps the outer positions swapped and the middle untouched until `i >= j` |
| StringsLesson.CountVowels | lessons/02-basic-types/exercises/strings/main.go:16-25 | the loop returns the number of positions whose rune is one of the 30 vowel runes; this is at most the rune length and zero for the empty input |
| StringsLesson.ReverseKeepsRuneLength | lessons/02-basic-types/exercises/strings/main.go:33 | the reported rune length is the same for the input and its reversal |
| StringsLesson.ReverseKeepsVowelCount | lessons/02-basic-types/exercises/strings/main.go:8-24 | the input and its reversal have the same number of vowel positions |
| StringsLesson.WorkedReversals | lessons/02-basic-types/exercises/strings/main.go:8-13 | "hello" reverses to "olleh"; "привет" is 6 runes long and reverses to "тевирп" |
| StringsLesson.WorkedLatinCount | lessons/02-basic-types/exercises/strings/main.go:16-24 | "hello" has 2 vowels |
| StringsLesson.WorkedCyrillicCount | lessons/02-basic-types/exercises/strings/main.go:16-24 | "привет" has 2 vowels, и and е |
| StringsLesson.WorkedAllLatinVowels | lessons/02-basic-types/exercises/strings/main.go:17 | "AEIOUaeiou" counts 10: the set holds both cases of every Latin vowel |
| StringsExample.AnalyzeLine | examples/strings/main.go:16-30 | the inline swap loop yields a result of the input's length whose k-th rune is the input's (n-1-k)-th; the count is the number of positions holding a Latin vowel |
| StringsExample.CountLatinVowels | examples/strings/main.go:24-30 | the loop counts the positions whose rune is one of "aeiouAEIOU". The count is at most the rune length and never more than the lesson's 30-rune count on the same input |
| StringsExample.LatinCountAtMostLessonCount | examples/strings/main.go:24 | since the Latin set is a subset of the lesson's set, the example's count never exceeds the lesson's |
| StringsExample.CyrillicOnlyCountsZero | examples/strings/main.go:24-30 | a line made only of runes from the Cyrillic block counts zero Latin vowels |

## Left out

- Console input and output are not modelled: `fmt.Print`, `fmt.Scanln` and `fmt.Printf` in both programs. The input line is taken as a parameter, and the results are returned instead of printed. Go's `Scanln` reads only up to the first space; that token is taken to be the input.
- UTF-8 decoding by `[]rune(s)` and `range s` is not modelled, including the replacement of invalid bytes by U+FFFD. The decoded rune sequence is the input.
- The example prints `len(input)` at examples/strings/main.go:14. That is the length in UTF-8 bytes, not in runes, so it differs from the lesson's rune length for Cyrillic input. It would need a UTF-8 encoder, so it is not modelled.
- StringsLesson.RuneLength has no contract of its own. It is the length of the rune sequence, and its one property is stated by `ReverseKeepsRuneLength` and `WorkedReversals`.
- The other lesson programs are not modelled:
  - The temperature converter (`lessons/02-basic-types/exercises/temperature/main.go`) is a menu loop over `float64` arithmetic.
  - The numbers demo (`lessons/02-basic-types/exercises/numbers/main.go`) shows float conversions and a `uint8` wrap-around.
- The vowel counts of the two programs differ: the lesson counts Cyrillic and Latin vowels in both cases, while the example counts only the Latin ones. Each is modelled as its code writes it.
