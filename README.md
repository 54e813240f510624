# Viterbi part-of-speech tagger core, in Dafny

This project models three parts of a small Python 2 tagger for tweets:

- **`viterbi.dfy`, module `Viterbi`.** This is the exact Viterbi decoder of `viterbi.py`.
  - `run_viterbi` checks the shapes of the emission (N×L), transition (L×L), start and end scores.
  - It fills an N×L score matrix and a back-pointer matrix row by row. The best predecessor of each cell comes from `getMaxScore`, a first-maximum scan that only moves on a strict `>`.
  - It adds the end scores, chooses the first best final label, and rebuilds the label sequence with `getMaxScoringPath`.
  - The decoder is proved optimal against the brute-force scorer of the file's self-test, and the brute-force search itself is modelled too.
- **`conll.dfy`, module `Conll`.** This is the CONLL reader and writer of `data.py`.
  - `read_file` runs over the lines of a file. Blank lines end a sentence, empty sentences are skipped, and every other line must split into a token and a label.
  - `write_sent` and `write_preds` write one tab-separated line per token and a blank line after each sentence.
  - The model proves that reading back what `write_sent` wrote without predictions gives the same corpus, provided every sentence is non-empty and its tokens and labels are non-empty and contain no whitespace. The third column that `write_preds` writes makes `read_file` fail on its output, so no round trip is claimed there.
- **`features.dfy`, module `Features`.** This is the feature builder of `feat_gen.py`.
  - `token2features` lists a token's features: bias, position, word, lower case, stem and word tests. With `add_neighs` it adds the features of the neighbouring tokens prefixed `PREV_` / `NEXT_`, computed without their own neighbours.
  - The in-place substitution loop of `preprocess_corpus` rewrites slang words and contractions.

Each imperative routine keeps its imperative form:
- The tables are `array2`s filled by nested loops.
- The reader loop threads its state through locals.
- The output file is a class whose `Write` appends.
- The corpus is a sequence of arrays rewritten in place.

Each routine is proved against a specification function, and the lemmas state what the code promises.

Scores are `real`s. The `-inf` start values of the running maxima become an index sentinel (`-1`, or an empty best sequence), which gives the same outcome because every real candidate beats `-inf`.

## Model

| member | source | states |
|---|---|---|
| Viterbi.Decode | viterbi.py:52-57 | decoding fails with `ShapeMismatch` exactly when one of the four shape assertions fails, and with `EmptyInput` exactly when the shapes agree but there are no tokens or no labels |
| Viterbi.ArgMaxIsFirstMax | viterbi.py:10-14 | the left-to-right scan with strict `>` returns an index of a maximum with no earlier index reaching it (ties go to the first index) |
| Viterbi.FirstMaxUnique | viterbi.py:12-14 | the first maximum is unique, so the tie-break fixes the choice |
| Viterbi.GetMaxScore | viterbi.py:5-18 | the returned index is in [0, L), its candidate `path_scores[r-1][i] + T[i][c]` is at least every other one and strictly above every earlier one, and the cell score is that maximum plus the emission score |
| Viterbi.StepIsNextRow | viterbi.py:68-70 | every cell of a forward row takes the first best predecessor of the previous row, and its score is that predecessor's score plus the transition and emission scores |
| Viterbi.ExtendTable | viterbi.py:68-70 | appending such a row to the tables keeps the table invariant |
| Viterbi.ForwardIsTable | viterbi.py:59-70 | the forward tables satisfy the invariant: row 0 is emission plus start score with pointers -1, and every later row follows from the one before |
| Viterbi.TablesAreTables | viterbi.py:59-70 | the complete N-row tables satisfy the invariant |
| Viterbi.TableAttained | viterbi.py:68-70 | every cell score at t ≥ 1 equals its pointer's score plus the transition and emission scores |
| Viterbi.TableDominated | viterbi.py:68-70 | every cell score at t ≥ 1 is at least every predecessor's score plus the transition and emission scores |
| Viterbi.TablePointersInRange | viterbi.py:68-70 | every back-pointer at t ≥ 1 is a label in [0, L) |
| Viterbi.BackTraceFollows | viterbi.py:82-88 | the sequence rebuilt from the back-pointers has t+1 labels, all in range, and each label is the pointer stored for the next one |
| Viterbi.BackTraceUnique | viterbi.py:82-88 | it is the only label sequence ending in j whose consecutive labels follow the pointers |
| Viterbi.BackTraceAttains | viterbi.py:68-88 | the score of the rebuilt prefix equals the table score of the cell it ends in |
| Viterbi.PrefixBound | viterbi.py:68-70 | no label sequence has a prefix score above the table score of the cell its prefix ends in |
| Viterbi.LabelingBounded | viterbi.py:73-79 | no label sequence of length N scores above the chosen final score |
| Viterbi.EveryLabelingBounded | viterbi.py:73-79 | the same bound, for all label sequences at once |
| Viterbi.DecodeOptimal | viterbi.py:109-126 | a successful decode returns N labels in range, the returned score is the brute-force score of that path, and no label sequence of length N scores higher |
| Viterbi.DecodeTieBreak | viterbi.py:73-88 | the last label is the first maximum of last row plus end scores, the score is that value, and each earlier label is the first best predecessor of the next |
| Viterbi.SingleToken | viterbi.py:68-85 | with one token the path is the single first best label of emission plus start plus end score, with that score |
| Viterbi.GetMaxScoringPath | viterbi.py:21-32 | the loop collects the pointer chain from the last row back to the first -1 pointer |
| Viterbi.WalkIsBackTrace | viterbi.py:82-85 | the collected chain, reversed and followed by the start index, is the rebuilt label sequence |
| Viterbi.BackTrack | viterbi.py:82-85 | collecting, reversing and appending the start index gives the rebuilt label sequence |
| Viterbi.ForwardRow | viterbi.py:68-70 | the inner loop sets row i of both matrices to the next table row and changes no other row |
| Viterbi.FillTables | viterbi.py:59-70 | the allocated matrices hold the forward tables, with row-0 pointers left at -1 |
| Viterbi.AddEndScores | viterbi.py:73-79 | the final loop returns the first index maximising last row plus end scores, and that value; row N-1 of the score matrix now holds last row plus end scores, and every other row is unchanged |
| Viterbi.Terminate | viterbi.py:73-88 | termination returns the first best final score and the path rebuilt from that label; the score matrix keeps the forward table in rows 0 .. N-2 and holds table plus end scores in row N-1 |
| Viterbi.DecodeChecked | viterbi.py:59-91 | on well-shaped input the imperative decoder returns the specified best decoding |
| Viterbi.RunViterbi | viterbi.py:35-91 | `run_viterbi` returns exactly the specified result, and on success a path of length N |
| Viterbi.LabelingsComplete | viterbi.py:111 | the enumeration `product(range(L), repeat=N)` holds exactly the label sequences of length N |
| Viterbi.ScoreSequence | viterbi.py:113-119 | the scoring loop computes start + transitions + emissions + end of the sequence |
| Viterbi.SearchAll | viterbi.py:111-123 | the search returns a candidate of maximal score among all candidates |
| Viterbi.BruteForce | viterbi.py:109-123 | the exhaustive search returns a label sequence of length N whose score no other sequence exceeds |
| Viterbi.ViterbiMatchesBruteForce | viterbi.py:107-126 | decoding succeeds and its score equals the best brute-force score |
| Conll.Split | data.py:46 | every field of `line.split()` is non-empty and free of whitespace |
| Conll.SplitEmptyIffBlank | data.py:37-46 | a line splits into no fields exactly when it is blank after stripping |
| Conll.SplitTokenLine | data.py:63-66 | a written token line splits back into its token and label |
| Conll.ReadLinesConcat | data.py:36 | `readlines` of a text written line by line gives back those lines |
| Conll.Step | data.py:37-48 | one loop pass fails exactly on a non-blank line without two fields |
| Conll.ReadFile | data.py:29-49 | the reader loop computes the specified fold over the lines |
| Conll.RunAligned | data.py:41-48 | the fold keeps sentences and label lists of equal count, each pair of equal non-zero length |
| Conll.ReadAligned | data.py:41-48 | a successful read gives equally many sentences and label lists, each sentence non-empty and as long as its labels |
| Conll.RunFails | data.py:46 | the fold fails exactly when some line is bad, and it reports the first bad line |
| Conll.ReadFails | data.py:46 | reading fails exactly when some line is neither blank nor two fields |
| Conll.RunAppend | data.py:36-48 | folding over two blocks of lines is folding over the first and then the second |
| Conll.NoFinalFlush | data.py:36-49 | a token line at the end of the file, with no blank line after it, does not change what is read |
| Conll.TextFile.constructor | data.py:53 | a file opened for writing starts empty |
| Conll.TextFile.Write | data.py:63 | each write appends its text |
| Conll.SentLines | data.py:62-67 | a sentence is written as one `tok \t label [\t pred] \n` line per token and then one empty line |
| Conll.WriteToken | data.py:63-66 | one token line is appended, with the prediction column only when there is a prediction |
| Conll.WriteSent | data.py:60-67 | `write_sent` appends exactly the sentence's lines, in order |
| Conll.WritePreds | data.py:51-58 | `write_preds` goes ahead exactly when sentences, labels and predictions are equally many, and then writes every sentence in order |
| Conll.RunTokens | data.py:45-48 | reading written token lines appends their tokens and labels to the current sentence |
| Conll.RunSentence | data.py:37-48 | reading a written sentence appends it and its labels and starts a new sentence |
| Conll.RunDocument | data.py:36-48 | reading the lines written for the first n sentences gives those sentences and labels |
| Conll.DocLinesAreLines | data.py:62-67 | every written line ends in its only newline |
| Conll.ReadWhatWasWritten | data.py:29-67 | reading back the file written without predictions gives the same sentences and labels, when tokens and labels are non-empty and free of whitespace |
| Features.PrefixedMembers | feat_gen.py:119-124 | a prefixed neighbour feature is the prefix followed by one of the neighbour's features |
| Features.OwnUnprefixed | feat_gen.py:82-116 | none of a token's own features starts with `P` or `N` |
| Features.UnprefixedMembers | feat_gen.py:118-124 | a string starting with neither `P` nor `N` is a feature exactly when it is one of the token's own |
| Features.BiasFirst | feat_gen.py:82-84 | `BIAS` is always the first feature |
| Features.PositionFeatures | feat_gen.py:86-89 | `SENT_BEGIN` is a feature exactly when i == 0, and `SENT_END` exactly when i is the last index |
| Features.WordFeatures | feat_gen.py:92-96 | `WORD=`, `LCASE=` and `STEMMED=` of the word are always features |
| Features.FlagFeature | feat_gen.py:98-116 | a name starting with `I` is a feature exactly when the word tests add it |
| Features.WordTests | feat_gen.py:98-107 | `IS_ALNUM`, `IS_NUMERIC`, `IS_DIGIT`, `IS_UPPER` and `IS_LOWER` are features exactly when their tests hold |
| Features.PatternTests | feat_gen.py:109-116 | `IS_URL` exactly when the word starts with `http` or ends with `.com`, `IS_ABRV` exactly when it is an abbreviation, `IS_HASHTAG` and `IS_MENTION` exactly when it starts with `#` or `@` |
| Features.AbbreviationsFlagged | feat_gen.py:8-14 | with the program's abbreviation set, `IS_ABRV` is a feature exactly when the word is one of its 98 words |
| Features.NoNeighboursWithout | feat_gen.py:118 | without `add_neighs` no feature starts with `PREV_` or `NEXT_` |
| Features.PreviousFeatures | feat_gen.py:119-121 | with `add_neighs`, `PREV_` + g is a feature exactly when i > 0 and g is a feature of token i-1 computed without neighbours |
| Features.NextFeatures | feat_gen.py:122-124 | with `add_neighs`, `NEXT_` + g is a feature exactly when i is not last and g is a feature of token i+1 computed without neighbours |
| Features.PrefixedOnce | feat_gen.py:119-124 | a prefixed neighbour feature starts with its prefix and with no second neighbour prefix after it |
| Features.FeatureShape | feat_gen.py:82-124 | every feature is unprefixed or carries exactly one neighbour prefix |
| Features.NoNestedNeighbours | feat_gen.py:118-124 | no feature starts with `PREV_PREV_`, `PREV_NEXT_`, `NEXT_PREV_` or `NEXT_NEXT_` |
| Features.PreprocessCorpus | feat_gen.py:54-59 | every slang token becomes its slang value; otherwise a contraction becomes its expansion; every other token is unchanged (sentence count and lengths are kept) |

## Left out

- File and console I/O are not modelled: `open`, `print`, `read_twitter`, `maybe_create_path`, and loading `slang_dict.csv`. The reader works on the list of lines, the writer on an in-memory text, and the slang dictionary is a parameter of `PreprocessCorpus`.
- `file_splitter` depends on `random.Random`. The argparse command line, the training and evaluation pipeline, and the `tagger` module are not part of this model. Neither is `synthetic_data`, which is constant data.
- The Porter stemmer, `unicode.lower` and the `unicode.is…` tests are library behaviour. They are function-valued fields of `Features.TextOps`, and the `unicode(...)` and `encode('utf-8')` conversions are the identity on strings.
- Features.Token2Features: the abbreviation set is read from `TextOps.abbreviations` rather than from the global. `Features.Abbreviations` holds the program's 98 words, and `AbbreviationsFlagged` proves that with this set `IS_ABRV` fires exactly on those words.
- Features.Token2Features: `i` must index the sentence. Python's negative indices are not modelled.
- Viterbi.RunViterbi: floating-point arithmetic, `-inf` and NaN are not modelled, since scores are reals.
- Viterbi.RunViterbi: the IndexError that the source raises on an empty sentence or an empty label set is the error value `EmptyInput`.
- Viterbi.GetMaxScore: requires L ≥ 1. With L = 0 the source returns `-inf` and index -1, which `run_viterbi` never asks for once its input is non-empty.
- Viterbi.BruteForce: the random inputs and the printing of the self-test are left out. What it compares is `ViterbiMatchesBruteForce`.
- Conll.ReadFile: tokens are kept as strings. The `unicode(token, 'utf-8')` decoding is the identity here, so its UnicodeDecodeError on a token that is not valid UTF-8 is not modelled.
- Conll.WriteSent: requires that labels and predictions are at least as long as the tokens. The source then raises IndexError, which is not modelled.
- Conll.WritePreds: the per-sentence length requirement of `write_sent` is a precondition. When the three counts differ, the model returns `ok == false` with nothing written, where the source fails its assertion after opening the file.
- Features.PreprocessCorpus: requires the sentences to be distinct arrays. Two list entries that are the same Python list (aliasing) are not modelled.
