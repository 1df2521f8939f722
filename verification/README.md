# rusty_repo in Dafny

This project models the pure logic of a set of Rust teaching exercises and proves
properties of it:

- **minigrep**: a line search utility. `Config::new` validates the command-line
  arguments. `search` returns, in order, the trimmed form of every line of a text
  that contains a query. `run` prints the result of searching a file's contents.
- **iterators_and_closures**: the memoising `Cacher`, which computes once and then
  returns the same value forever; `shoes_in_my_size`, an order-preserving filter;
  the `Counter` iterator, which yields 1 to 5; and the zip/skip/map/filter/sum
  pipeline that its test builds on `Counter`.
- **rusty_repo**: `Rectangle` arithmetic (`area`, `can_hold`, `square`, `double`),
  `value_in_cents` and `count_nonquarter_coins` over the `Coin` enum, and
  `plus_one` over `Option<i32>`.
- **lifetimes**: `longest_with_an_announcement`, which picks the longer of two
  strings by byte length.

The Dafny modules follow the repository's directories. `Minigrep`,
`IteratorsAndClosures`, `RustyRepo` and `Lifetimes` each model one source file.
They share four small modules:

- `Wrappers`: Rust's `Option` and `Result`.
- `Primitives`: `u32` and `i32` as bounded newtypes.
- `Seqs`: order-preserving filtering, with the kept positions as a witness.
- `Text`: the parts of Rust's `str` that `search` calls: `lines`, `trim` and
  `contains`.

Strings are sequences of Unicode scalar values. Borrowed slices (`&str`,
`Vec<&str>`) are modelled as values. The `Cacher`'s closure is a Dafny function
value supplied at construction. State that Rust mutates through `&mut self`
(`Cacher::value`, `Counter::next`) is threaded through: each call returns the new
state together with its result.

The search does no de-duplication, although it is easy to read it as returning each
line at most once: two equal matching lines give two equal results.
`MatchesCharacterized` states one result per matching line.

`str::lines` is modelled as the current Rust standard library defines it:

- split after each `'\n'`;
- drop that `'\n'`, then one `'\r'` just before it;
- an unterminated final line is kept as it is, including a trailing `'\r'`.

Older toolchains also removed a bare `'\r'` at the very end of the text. After
`trim` this can only matter for a query that ends in `'\r'`.

## Model

| member | source | states |
|---|---|---|
| Minigrep.NewConfig | minigrep/src/lib.rs:51-60 | fails exactly when fewer than 3 arguments are given, with the error "Not enough arguments"; otherwise the query is argument 1 and the file name argument 2, verbatim |
| Minigrep.NewConfigIgnoresExtra | minigrep/src/lib.rs:53-59 | once 3 arguments are present, appending more arguments never changes the outcome |
| Minigrep.NewConfigRoundTrip | minigrep/src/lib.rs:52-59 | any configuration is recovered from the argument list `[program, query, filename]` |
| Minigrep.Search | minigrep/src/lib.rs:25-33 | the loop that pushes the trimmed form of each matching line returns the filter-then-trim description `Matches`; there are at most as many results as lines; an empty query returns every line trimmed; empty contents return nothing |
| Minigrep.MatchesStep | minigrep/src/lib.rs:27-31 | one more line extends the result by its trimmed form exactly when it contains the query, and otherwise leaves the result unchanged |
| Minigrep.MatchesCharacterized | minigrep/src/lib.rs:25-33 | result k is the trimmed form of the k-th line that contains the query; the matching line positions are strictly increasing, so the order is kept; every line that contains the query is reported; there is one result per matching line, no more than there are lines |
| Minigrep.MatchesSound | minigrep/src/lib.rs:27-30 | every reported string is the trimmed form of some line whose untrimmed text contains the query |
| Minigrep.MatchesEmptyQuery | minigrep/src/lib.rs:28-29 | the empty query matches every line, so the result is every line, trimmed, in order |
| Minigrep.MatchesEmptyContents | minigrep/src/lib.rs:27 | empty contents have no lines, so the result is empty for any query |
| Minigrep.OneResult | minigrep/src/lib.rs:10-22 | the crate's test: query "duct" on "Rust:" / "safe, fast, productive." / "Pick three." (the last two indented) returns exactly ["safe, fast, productive."] |
| Minigrep.Run | minigrep/src/lib.rs:35-44 | an open or read error is returned unchanged and nothing is printed; otherwise the printed lines are the search result for the configured query |
| Text.Lines | minigrep/src/lib.rs:27 | no line produced contains a newline |
| Text.LinesCount | minigrep/src/lib.rs:27 | the number of lines is the number of '\n' characters, plus one when the text is non-empty and does not end in '\n' |
| Text.LinesJoinLines | minigrep/src/lib.rs:27 | splitting undoes joining: lines without '\n' and without a trailing '\r', each followed by '\n', split back into the same lines |
| Text.LinesFinalNewlineOptional | minigrep/src/lib.rs:27 | a final line ending is optional: adding '\n' to an unterminated text that does not end in '\r' yields the same lines |
| Text.LinesCons | minigrep/src/lib.rs:27 | the text up to its first '\n' is the first line, minus one trailing '\r'; the lines of the rest follow |
| Text.TrimStart | minigrep/src/lib.rs:29 | the result is the suffix that remains after all leading whitespace is removed |
| Text.TrimEnd | minigrep/src/lib.rs:29 | the result is the prefix that remains after all trailing whitespace is removed |
| Text.Trim | minigrep/src/lib.rs:29 | the result is a slice of the input, surrounded only by whitespace, that neither starts nor ends with whitespace; whitespace is `char::is_whitespace` (`Text.IsWhitespace`), the Unicode White_Space set: U+0009 to U+000D, U+0020, U+0085, U+00A0, U+1680, U+2000 to U+200A, U+2028, U+2029, U+202F, U+205F and U+3000 |
| Text.TrimUnique | minigrep/src/lib.rs:29 | that description admits exactly one result |
| Text.TrimCharacterized | minigrep/src/lib.rs:29 | a string is `Trim`'s result if and only if it meets that description |
| Text.Contains | minigrep/src/lib.rs:28 | true exactly when the query occurs as a contiguous piece of the line at some position; characters are compared exactly, so matching is case-sensitive |
| Text.ContainsEmpty | minigrep/src/lib.rs:28 | the empty query occurs in every line |
| Text.NotContainsMissingChar | minigrep/src/lib.rs:28 | a query whose first character does not appear in the line does not match it |
| Seqs.FilterIndices | iterators_and_closures/src/main.rs:150-154 | the kept positions are strictly increasing, in range, and are exactly the positions whose element passes the test |
| Seqs.FilterIndexed | iterators_and_closures/src/main.rs:150-154 | the k-th kept element is the element at the k-th kept position |
| Seqs.FilterMembership | iterators_and_closures/src/main.rs:150-154 | a value is kept exactly when it occurs in the input and passes the test |
| Seqs.FilterSnoc | minigrep/src/lib.rs:27-31 | filtering a sequence extended by one element appends that element exactly when it passes the test |
| IteratorsAndClosures.NewCacher | iterators_and_closures/src/main.rs:38-43 | a new cacher holds no value and stores the calculation unchanged |
| IteratorsAndClosures.Value | iterators_and_closures/src/main.rs:49-58 | a cached value is returned for any argument, and the state is unchanged; with nothing cached, the result is the calculation applied to the argument; either way the cache then holds the returned value |
| IteratorsAndClosures.ValuesComputeOnce | iterators_and_closures/src/main.rs:45-58 | across any sequence of calls (`Values` threads the cacher through one `value` call per argument), every call returns what the first returned: the value already cached, or else the calculation applied to the first argument |
| IteratorsAndClosures.CallWithDifferentValues | iterators_and_closures/src/main.rs:135-142 | the crate's test: an identity cacher asked for 1 and then 2 returns 1 both times |
| IteratorsAndClosures.ShoesInMySize | iterators_and_closures/src/main.rs:150-154 | the result is the input shoes at the increasing positions whose size equals the requested size, in input order; a shoe is in it exactly when it is an input shoe of that size |
| IteratorsAndClosures.FiltersBySize | iterators_and_closures/src/main.rs:156-170 | the crate's test: size 10 keeps sneaker and boot, in that order, and drops sandal |
| IteratorsAndClosures.NewCounter | iterators_and_closures/src/main.rs:176-180 | a new counter starts at count 0 |
| IteratorsAndClosures.Next | iterators_and_closures/src/main.rs:185-193 | the count goes up by one; an item is returned exactly when the old count was below 5, and the item is the new count |
| IteratorsAndClosures.ItemsClosedForm | iterators_and_closures/src/main.rs:185-193 | over `n` successive calls (`Items` threads the counter through one `next` call each), call k (from 0) on a counter at c returns c + k + 1 while that is below 6, and None after that |
| IteratorsAndClosures.CallingNextDirectly | iterators_and_closures/src/main.rs:196-212 | the crate's test: a fresh counter yields 1, 2, 3, 4, 5, then None |
| IteratorsAndClosures.Drain | iterators_and_closures/src/main.rs:182-193 | the items before the first None, which an iterator adaptor consumes, are c + 1, ..., 5 for a counter at c |
| IteratorsAndClosures.Zip | iterators_and_closures/src/main.rs:216 | pairs elements position by position, up to the end of the shorter input |
| IteratorsAndClosures.Skip | iterators_and_closures/src/main.rs:216 | `skip(n)` drops the first n items: the result is empty when there are at most n items, and otherwise the skipped prefix followed by the result is the whole input |
| IteratorsAndClosures.Products | iterators_and_closures/src/main.rs:217 | the `map` that multiplies each pair: one product per pair, item k being the product of pair k |
| IteratorsAndClosures.SumAppend | iterators_and_closures/src/main.rs:219 | `sum()` is additive: the sum of a concatenation is the sum of the sums |
| IteratorsAndClosures.ZipProductSumSnoc | iterators_and_closures/src/main.rs:216-219 | the whole zip/map/filter/sum pipeline (`ZipProductSum`) over equal-length inputs extended by one pair adds that pair's product exactly when it is a multiple of 3 |
| IteratorsAndClosures.UsingOtherIteratorTraitMethods | iterators_and_closures/src/main.rs:214-221 | the crate's test: the zip of a counter with a counter that skips one item, multiplied pairwise, keeping multiples of 3, sums to 18 |
| RustyRepo.Area | rusty_repo/src/main.rs:8-10 | with a product that fits in u32, the area is width times height, and it is zero exactly when a side is zero |
| RustyRepo.CanHold | rusty_repo/src/main.rs:12-14 | true exactly when the rectangle is strictly wider and strictly taller than the other |
| RustyRepo.CanHoldStrictOrder | rusty_repo/src/main.rs:12-14 | can_hold is irreflexive, asymmetric and transitive |
| RustyRepo.CanHoldLargerArea | rusty_repo/src/main.rs:8-14 | a rectangle that can hold another has a strictly larger area |
| RustyRepo.Square | rusty_repo/src/main.rs:16-18 | both sides equal the given size |
| RustyRepo.SquareCanHold | rusty_repo/src/main.rs:12-18 | one square holds another exactly when its side is longer |
| RustyRepo.Double | rusty_repo/src/main.rs:20-25 | with doubled sides that fit in u32, each side is twice the original |
| RustyRepo.DoubleArea | rusty_repo/src/main.rs:8-25 | doubling quadruples the area, when that fits in u32 |
| RustyRepo.DoubleCanHold | rusty_repo/src/main.rs:12-25 | the doubled rectangle holds the original exactly when neither side is zero |
| RustyRepo.ValueInCents | rusty_repo/src/main.rs:39-50 | a Penny is 1, a Nickle 5 and a Dime 10; a coin is worth 25 exactly when it is a Quarter |
| RustyRepo.ValueInCentsOrder | rusty_repo/src/main.rs:39-50 | a quarter's value does not depend on its state; Penny < Nickle < Dime < Quarter by value |
| RustyRepo.CountNonquarterCoins | rusty_repo/src/main.rs:52-61 | the count is 0 for a quarter of any state and 1 for any other coin |
| RustyRepo.CountNonquarterMatchesValue | rusty_repo/src/main.rs:39-61 | a coin counts as a non-quarter exactly when it is worth less than 25 cents |
| RustyRepo.PlusOne | rusty_repo/src/main.rs:63-68 | None stays None; Some(i) becomes Some(i + 1), for i below i32::MAX |
| RustyRepo.PlusOneInjective | rusty_repo/src/main.rs:63-68 | different inputs give different outputs |
| Lifetimes.Utf8Width | lifetimes/src/main.rs:7 | `char::len_utf8`: 1 byte below U+0080, 2 below U+0800, 3 below U+10000, and 4 above that |
| Lifetimes.ByteLen | lifetimes/src/main.rs:7 | `str::len` is the sum of the characters' UTF-8 widths, so it lies between the character count and four times that |
| Lifetimes.ByteLenAppend | lifetimes/src/main.rs:7 | the byte length of a concatenation is the sum of the byte lengths |
| Lifetimes.Longest | lifetimes/src/main.rs:3-12 | returns x when x is strictly longer in bytes, and y otherwise, including on a tie |
| Lifetimes.LongestIsMax | lifetimes/src/main.rs:3-12 | the result is one of the two inputs, its length is the larger of the two lengths, and the announcement has no influence on it |
| Lifetimes.LongestSymmetric | lifetimes/src/main.rs:7-11 | when the lengths differ, swapping the arguments gives the same result |
| Lifetimes.LongestExample | lifetimes/src/main.rs:19-23 | `main`'s call: "abcd" is chosen over "xyz" |

## Left out

- `run`'s file access and printing are I/O. `Run` takes the outcome of opening and reading the file as a parameter. It returns the lines that would be printed, or the error.
- `Search` returns copies of the trimmed lines. Rust returns slices borrowed from the contents. Lifetimes and borrowing are not modelled.
- `Text.Contains` compares characters where Rust compares UTF-8 bytes. For valid UTF-8 the two agree, because the encoding is self-synchronising.
- `_simulated_expensive_calculation` and `generate_workout` sleep and print. `main` in every file only prints demonstrations. None is modelled.
- The printing inside `value_in_cents`, `count_nonquarter_coins` and `longest_with_an_announcement` is not modelled. Only their return values are.
- `Cacher::value`: the model cannot observe how often the calculation runs. "Not re-applied" appears as "a cached value is returned and the state is unchanged".
- IteratorsAndClosures.Next: requires the count to be below u32::MAX. The source's `+=` panics there in a debug build and wraps in a release build.
- RustyRepo.Area, RustyRepo.Double and RustyRepo.PlusOne: require their results to fit in `u32` or `i32`. The source panics on overflow in a debug build and wraps in a release build. The wrap-around is not modelled.
- IteratorsAndClosures.ZipProductSum multiplies and sums over mathematical integers. Rust uses `u32`, which panics on overflow. The test's values never exceed 20, and the sum is 18.
- The pipeline models iterators as the finite sequences of items before their first `None`. Rust's `zip` stops when the first iterator returns `None`, without calling the second. That only changes the discarded counters' internal state.
- `ImportantExcerpt` and the `split('.')` demonstration in `lifetimes/src/main.rs` belong to `main`. They are not modelled.
- `error_handling/src/main.rs` (file I/O and panics) and `smart_pointers/src/main.rs` (reference counts, `Drop` printing, interior mutability) are not part of this model. They contain no pure logic to state.
