# Professor card: letter grade, star strip and course count

This project models the logic inside the professor card of a small web app
that looks up University of Maryland professors (data from the PlanetTerp
API). The card shows a five-star strip for the professor's rating, the number
of distinct courses they teach, and a letter grade for the selected course's
average grade point. Everything else on the card, and on the landing and
results pages, is markup, animation or routing.

Three pure computations are modelled, each in its own module:

- `LetterGrade` — `getLetterGrade`: a missing average (`null` or `undefined`,
  modelled as `Option<real>`'s `None`) is `"N/A"`; a number goes through a
  descending chain of inclusive lower bounds 4.0, 3.7, 3.3, 3.0, 2.7, 2.3,
  2.0, 1.7, 1.3, 1.0 to `A`, `A-`, `B+`, `B`, `B-`, `C+`, `C`, `C-`, `D+`,
  `D`, else `F`. The model keeps the source's `if` chain and proves it equal to
  a reference definition ("the first letter whose bound is met"). It also
  proves the exact interval each letter owns, monotonicity in the average,
  and that there is no `A+`.
- `Stars` — the arithmetic of `renderStars`: `floor(rating)` full stars, one
  half star when the fractional part is at least 0.5, and `5 - full - half`
  empty stars, built in that order. The counts are usable as array lengths
  exactly when `0 <= rating < 5.5`, which is the precondition of the strip
  builder. The strip always has five entries in block order, and it shows the
  rating rounded down to the nearest half star.
- `CourseCount` — `Array.from(new Set(courses))?.length || "0"`: the number
  of distinct course names, where a zero count falls back to the string
  `"0"`. Both branches render as the decimal count of distinct courses.

`Wrappers` holds the `Option` type.

## Model

| member | source | states |
|---|---|---|
| `LetterGrade.LetterGrade` | src/components/ProfessorCard.tsx:15-28 | the result is "N/A" exactly when the average is missing; a numeric average always gets one of the 11 letters; every result is one of the 12 labels |
| `LetterGrade.FirstMet` | src/components/ProfessorCard.tsx:17-27 | reference definition: the index of the first inclusive lower bound the value meets (all earlier bounds exceed it), or the index of "F" when it meets none |
| `LetterGrade.LetterGradeIsFirstMet` | src/components/ProfessorCard.tsx:17-27 | the if-chain returns the first letter, in the order A … D, whose lower bound the average meets, else "F" |
| `LetterGrade.LetterInterval` | src/components/ProfessorCard.tsx:17-27 | a numeric average gets letter k if and only if it is at least letter k's bound and below the bound of letter k-1, so every number lands in exactly one letter |
| `LetterGrade.Rank` | src/components/ProfessorCard.tsx:17-27 | the rank of a letter is its position from the bottom of the letter scale ("F" 0 up to "A" 10) |
| `LetterGrade.RankIsBoundsMet` | src/components/ProfessorCard.tsx:17-27 | the rank of the letter a number gets is the number of bounds that number meets |
| `LetterGrade.LetterGradeMonotonic` | src/components/ProfessorCard.tsx:17-27 | if a <= b, the letter for a ranks no higher than the letter for b |
| `LetterGrade.NoAPlus` | src/components/ProfessorCard.tsx:17 | every average at or above 4.0 (including an A+ grade point of 4.3) is "A", and "A+" is never produced |
| `LetterGrade.Examples` | src/components/ProfessorCard.tsx:15-27 | 4.0 gives "A", 3.85 "A-", 3.125 "B", 0.0 "F", and a missing average "N/A" |
| `Stars.CountStars` | src/components/ProfessorCard.tsx:104-106 | the full count is the floor of the rating; there is a half star exactly when the rating exceeds its floor by at least 0.5; full, half and empty add up to 5 |
| `Stars.BuildableIff` | src/components/ProfessorCard.tsx:104-111 | the full and empty counts are both non-negative (valid array lengths) if and only if 0 <= rating < 5.5 |
| `Stars.Repeat` | src/components/ProfessorCard.tsx:109 | `Array(n).fill(k)` has length n and holds k at every index |
| `Stars.StarStrip` | src/components/ProfessorCard.tsx:108-112 | for a rating in [0, 5.5) the strip has length 5, is ordered full, then half, then empty, has a full star exactly at the first floor(rating) positions and a half star exactly at position floor(rating) when the fraction is at least 0.5 |
| `Stars.StripRoundsDownToHalf` | src/components/ProfessorCard.tsx:104-112 | the strip shows the rating rounded down to the nearest half star: its half-star total h satisfies h <= 2·rating < h + 1 |
| `Stars.StripMonotonic` | src/components/ProfessorCard.tsx:104-112 | a higher rating never shows fewer stars |
| `CourseCount.Distinct` | src/components/ProfessorCard.tsx:191 | the de-duplicated list holds the same courses as the input, each once, and is no longer than the input |
| `CourseCount.DistinctLength` | src/components/ProfessorCard.tsx:191 | the length of the de-duplicated list is the number of distinct course names |
| `CourseCount.CourseCountShown` | src/components/ProfessorCard.tsx:191 | the fallback "0" is shown exactly when the course list is empty; otherwise the number shown is the count of distinct courses, between 1 and the list length |
| `CourseCount.ShownIsDistinctCount` | src/components/ProfessorCard.tsx:191 | in both branches the printed text is the decimal count of distinct courses, and its digits spell that count |
| `CourseCount.DecimalStringValue` | src/components/ProfessorCard.tsx:191 | the digits printed for a count, read back most significant first, give that count |

## Left out

- LetterGrade.LetterGrade: a NaN average is outside the model, since `Option<real>` cannot hold it; the source shows "F" for NaN, because NaN fails every `>=` test of the chain.
- Averages and ratings are exact `real` numbers: IEEE-754 rounding near a bound (3.6999999 against 3.7) is not modelled.
- A rating outside [0, 5.5) makes `Array(n)` throw in the source; `Stars.StarStrip` requires the rating to be in range instead, and `Stars.BuildableIff` shows that range is exactly where the counts are valid. A missing or NaN rating is not modelled.
- The star glyphs and styling (src/components/ProfessorCard.tsx:114-130) and the course dropdown's options, which list `courses` as given, duplicates included (205-209), are markup.
- `CourseCount.Distinct`'s first-occurrence order is what `Array.from(new Set(...))` produces, but only its contents are stated, since only its length is used.
- The GSAP animation timelines (56-82) and the course-change handler (84-101), which animates and then calls the parent's callback, are UI timing.
- React state and refs: the `currentAverage` mirror of the prop (50-54) and the star refs (119-121) are framework-managed.
- The "Visit Profile" button's `window.open` (244-250) is browser I/O.
- The rating text `rating?.toFixed(2)` (177) is floating-point formatting, and `reviews || "N/A"` (184) is presentation.
- src/pages/LandingPage.tsx: the trim guard and router navigation of `handleSearch` (9-13) call into the router and `encodeURIComponent`, and its "Recently Searched" list (65-92) is three fixed buttons, not a store.
- src/pages/ResultsPage.tsx only keeps the text of a search box; its search button has no handler.
