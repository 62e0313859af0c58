# Predictive deception: a verified model of its core

Predictive deception is a honeypot that tries to stay one step ahead of the
intruder. A defender follows the log of every command an attacker types. It
keeps a history per session and asks a language model for the next few
commands. For each prediction it prepares a decoy in advance: a file on disk,
or an injected output and files in the scenario document that the fake shell
reads. This set of speculative branches is planned for every command. When
the next real command arrives, the matching branch is kept and the others
are cleaned up. Around this engine sit:

- the fake SSH shell that consumes the injected world state: path resolution,
  `ls`, static files, tab completion, the line editor, `cd` and `wget`;
- the scripts that score next-command predictions: top-k, retrieval-augmented,
  hosted and local models;
- the tools that turn Cowrie honeypot exports into clean session datasets and
  fine-tuning examples.

This project models that core in Dafny and proves properties of the model.
Each Python file of the core has its own module. Code that mutates
module-level dictionaries or a session's state becomes a class whose fields
are those dictionaries, with methods proved against specification functions.
Pure string and list logic becomes functions and lemmas. The regular
expressions are written out as explicit scanners. The language model, the
generator, the vector store, file contents and `json.loads` are parameters
of the model: opaque functions or given values.

Modules:

- The three defenders, which the source keeps as three variants with
  different behaviour and which are modelled separately:
  - `HoneypotDefender`: Honeypot/roles/defender/files/defender2.py;
  - `ArtifactDefender`: Deception/defender.py;
  - `ScenarioDefender`: deception/defender.py.
- The shell:
  - `ShellBrain`: deception/brain.py;
  - `SessionHandler`: deception/session_handler.py;
  - `LineEditing`: the key loop shared by both front ends;
  - `LegacyBrain`: Deception/Brain.py.
- The evaluation scripts:
  - `PromptUtils`: prompting/utils.py;
  - `TopK`: prompting/core_topk.py;
  - `RagIndex`, `RagScoring` and `RagDbHit`: prompting/core_rag.py;
  - `RagContamination`: prompting/core_RAG.py;
  - `OllamaTopK`: evaluate_ollama_topk.py;
  - `LlmEval`: evaluate_LLM.py;
  - `OpenRouterEval`: evaluate_LLM_OpenRouter.py.
- The dataset tools:
  - `Finetune`: fine_tuning/convert_sessions_to_finetune.py;
  - `CowrieNormalize`, `CowrieStream` and `CowrieClean`: inspectDataset/analyze_and_clean.py;
  - `CowrieMerge`: merge_cowrie_datasets.py.
- Shared helpers:
  - `Outcomes`: Option and Result;
  - `Seqs`: Python list slicing;
  - `PyText`: Python `str` methods;
  - `PyPath`: `posixpath`;
  - `StringOrder`: Python string order and `sorted`;
  - `JsonValue`: JSON values with Python truthiness;
  - `JsonStore` and `HoneypotLog`: the stored JSON files and the command log;
  - `Windows`: sliding windows.

Where the code does something other than its comments or documentation
describe, the model follows the code. These cases are:

- `clean_prediction` in evaluate_LLM.py strips quotes and then trailing
  `.,;`, in that order. A result can therefore still end in a quote (`x".`
  gives `x"`). The model states the exact result rather than "no trailing
  punctuation".
- The candidate loop of prompting/core_rag.py (lines 272-284) never uses
  its index. Only the first pipeline segments are ever compared.
- In deception/defender.py the `end != -1` test of the JSON cut (line 217)
  is always true, because `end` is `rfind(...) + 1`.
- In deception/defender.py, injection writes a relative artifact path with
  `\` replaced by `/`, but removal does not replace it. Such a file survives
  its branch's removal (`ScenarioDefender.InjectedFileSurvivesRemoval`).
- Deception/defender.py removes the file of a path that two branches share
  while it commits the other branch (`ArtifactDefender.SharedFileIsLost`).
- `cd ~` in deception/session_handler.py goes to the default home
  (`/root` or `/home/<user>`). It does not use the home read from the
  scenario's passwd file.
- evaluate_LLM_OpenRouter.py does not add the items it scores during a run
  to its `done` set. Only the results file read at start-up makes items skip.

## Model

| member | source | states |
|---|---|---|
| HoneypotLog.GetOr | Honeypot/roles/defender/files/defender2.py:252-253 | `entry.get(key, default)`: the stored value when the key is present, the default otherwise |
| HoneypotLog.Command | Honeypot/roles/defender/files/defender2.py:311 | the command read from a log entry is stripped: it is empty or begins and ends with a visible character |
| HoneypotLog.SessionKeyInjective | Honeypot/roles/defender/files/defender2.py:251-254 | two entries get the same `scenario|ip` key exactly when their scenarios (defaulting to `default`) and addresses (defaulting to `unknown_ip`) agree, for scenario names without `|` |
| HoneypotLog.SplitAtBar | Honeypot/roles/defender/files/defender2.py:254 | `a|b == c|d` with no `|` in `a` and `c` forces `a == c` and `b == d` |
| HoneypotLog.FirstBar | Honeypot/roles/defender/files/defender2.py:254 | the first `|` of `scenario|ip` sits right after the scenario |
| HoneypotLog.LogEntries | Honeypot/roles/defender/files/defender2.py:588-611 | `follow_log` yields at most one entry per line, each the decoding of some non-blank stripped line; blank and undecodable lines are skipped |
| JsonStore.Load | Honeypot/roles/defender/files/defender2.py:222-229 | `load_json`: the saved document, or the default when the file is missing or does not parse |
| HoneypotDefender.PredictionsShape | Honeypot/roles/defender/files/defender2.py:378-402 | `predict_next_commands` gives at most `PRED_K` stripped non-empty lines of the model text, taken in order; the five default commands when the history is empty or the response is empty |
| HoneypotDefender.DefaultsStripped | Honeypot/roles/defender/files/defender2.py:382 | the default predictions are non-empty and stripped |
| HoneypotDefender.BlankResponseGivesNoPredictions | Honeypot/roles/defender/files/defender2.py:396-398 | a response made only of white space is truthy but gives an empty prediction list, not the defaults |
| HoneypotDefender.CreateDefenseFixed | Honeypot/roles/defender/files/defender2.py:450-532 | after parsing or the fallback, a descriptor always has a non-empty `intended_path` and a non-empty artifact list; an unparsable reply gives the single fallback artifact; a parsed `intended_path` and artifact count are kept; every artifact path is a base name and every artifact has content |
| HoneypotDefender.MaterializedAtMostIntended | Honeypot/roles/defender/files/defender2.py:534-586 | at most one file is written, at `intended_path`, and only when it is writable; none without `intended_path` or without artifacts |
| HoneypotDefender.CreatedDefenseMaterializes | Honeypot/roles/defender/files/defender2.py:495-532 | a descriptor built by `create_defense_for_predicted_command` is written exactly when its `intended_path` is writable |
| HoneypotDefender.IndexGrowthStep | Honeypot/roles/defender/files/defender2.py:423-432 | one more prediction keeps the growth invariant of the index: hits are untouched, misses are (re)registered |
| HoneypotDefender.DefendedStep | Honeypot/roles/defender/files/defender2.py:435-436 | handling one more prediction keeps every earlier branch's paths those of its indexed descriptor |
| HoneypotDefender.OnlyBranchChangesStep | Honeypot/roles/defender/files/defender2.py:570-577 | recording a path for this session's prediction keeps "only this branch's entries changed" |
| HoneypotDefender.Defender.constructor | Honeypot/roles/defender/files/defender2.py:613-615 | start-up: history and `active_artifacts` are the loaded files (or empty), no branch is active |
| HoneypotDefender.Defender.FindExistingDefense | Honeypot/roles/defender/files/defender2.py:288-293 | `find_existing_defense` returns the `by_command` entry for the exact command, and is present exactly when the command is indexed |
| HoneypotDefender.Defender.UpdateHistory | Honeypot/roles/defender/files/defender2.py:268-274 | the command is appended at the end of this session's list (created if absent), every other session is unchanged, and the history file holds the new state |
| HoneypotDefender.Defender.RegisterDefense | Honeypot/roles/defender/files/defender2.py:296-304 | `by_command[command]` becomes the descriptor, every other lookup is unchanged, and the index file is saved |
| HoneypotDefender.Defender.MaterializeDefenseArtifacts | Honeypot/roles/defender/files/defender2.py:534-586 | writes the first artifact's content at `intended_path` and records `{command, session, timestamp}` for it, or changes nothing |
| HoneypotDefender.Defender.ObtainDefense | Honeypot/roles/defender/files/defender2.py:423-432 | a cached descriptor is reused and the index is unchanged; otherwise the created descriptor is registered |
| HoneypotDefender.Defender.DefendPrediction | Honeypot/roles/defender/files/defender2.py:419-431 | one prediction: the index entry becomes the truthy cached descriptor, or on a miss the one `create_defense_for_predicted_command` builds from the generator's reply; its paths are that descriptor's written decoy, the disk gains that decoy, the registry records exactly those paths for this command and session, and no other index entry changes |
| HoneypotDefender.Defender.DefendAll | Honeypot/roles/defender/files/defender2.py:418-431 | index, disk and registry are exactly the plan fold over the predictions in order (`Applied`): each prediction indexed with its cached or created descriptor, each decoy written and recorded in turn so the last write to a path wins; the branch map has one entry per prediction with its written paths; only this session's entries are added to the registry |
| HoneypotDefender.Defender.PlanAndApplyDefenses | Honeypot/roles/defender/files/defender2.py:404-448 | the session's branch set becomes exactly the predictions, each with the decoy of its cached or created descriptor; index, disk and registry are the plan fold (`Applied`); other sessions are untouched, registry and disk only grow, consistency is kept and the registry is saved |
| HoneypotDefender.Defender.DiscardPaths | Honeypot/roles/defender/files/defender2.py:351-369 | each path leaves the registry, and leaves the disk when it exists and is removable |
| HoneypotDefender.Defender.DiscardCommands | Honeypot/roles/defender/files/defender2.py:347-369 | the paths of every listed command leave the registry and, where removable, the disk |
| HoneypotDefender.Defender.CleanupOtherBranches | Honeypot/roles/defender/files/defender2.py:332-376 | no change when the session has no branch set or the command was not predicted; otherwise the other predictions' paths are removed and the branch set becomes `[actual]` with its own paths; other sessions are untouched |
| HoneypotDefender.Defender.CommitBranch | Honeypot/roles/defender/files/defender2.py:318 | committing gives exactly the branch sets, registry and disk `CommittedBranches`, `CommittedRegistry` and `CommittedFiles` describe: on a hit the session keeps only `[cmd]` with its paths, every other prediction's paths leave the registry and, where removable, the disk, and the registry is saved; a miss changes nothing; consistency is kept |
| HoneypotDefender.Defender.ExtendAndPlan | Honeypot/roles/defender/files/defender2.py:321-328 | the history gains the command and is saved; the predictions made from that history are planned: the new branch set holds each with its decoy, and index, disk and registry are the plan fold over them (`Applied`) from the state before; the registry keeps every key and is saved; other sessions are untouched |
| HoneypotDefender.Defender.HandleNewCommand | Honeypot/roles/defender/files/defender2.py:309-330 | a blank command changes nothing; otherwise the commit and the plan composed: the history gains the command, and index, disk and registry are the plan fold over the predictions from the extended history, applied to the committed disk and registry; each new branch holds its decoy; other sessions are untouched |
| HoneypotDefender.StaleDecoysReplannedOnly | Honeypot/roles/defender/files/defender2.py:318-328 | after a hit, a path of a discarded prediction that is registered after the new plan was recorded again, for this session and one of the new predictions |
| HoneypotDefender.ChosenAt | Honeypot/roles/defender/files/defender2.py:419-427 | the loop uses, for each prediction, the truthy indexed descriptor or else the generated one |
| HoneypotDefender.PlanIndex | Honeypot/roles/defender/files/defender2.py:418-428 | after the loop every prediction is indexed with a truthy descriptor, a miss with exactly the generated one, a hit keeps its entry, and no other command's entry changes |
| HoneypotDefender.DefenseForStable | Honeypot/roles/defender/files/defender2.py:419-427 | a prediction repeated later in the list gets the same descriptor: the entry the loop registered for it is truthy and reused |
| HoneypotDefender.PlanSnoc | Honeypot/roles/defender/files/defender2.py:418-431 | one more prediction extends the index by its descriptor, writes its decoy to disk and records its paths for it |
| HoneypotDefender.AppliedStep | Honeypot/roles/defender/files/defender2.py:419-431 | from a state the loop reached, the current index picks for the next prediction exactly the descriptor the plan chose, so its handling is the plan's next step |
| HoneypotDefender.LastDecoyWins | Honeypot/roles/defender/files/defender2.py:541-566 | after a run of decoy writes a path holds the content of the last descriptor writing it; a path none writes keeps its old content |
| HoneypotDefender.LastDecoyRecorded | Honeypot/roles/defender/files/defender2.py:568-575 | after a run of decoys the registry records a path for the command of the last descriptor writing it; other paths keep their record |
| HoneypotDefender.PlanLastDecoyWins | Honeypot/roles/defender/files/defender2.py:418-431 | after the loop a path holds the content and the record of the last prediction whose decoy it is, and no later prediction writes it; a path no prediction writes keeps its content and record |
| HoneypotDefender.LastDecoyWriter | Honeypot/roles/defender/files/defender2.py:418-431 | the last decoy writing a path belongs to the last prediction whose decoy is that path, and no later prediction's decoy is it |
| ArtifactDefender.DefaultsStripped | Deception/defender.py:280 | the default predictions are non-empty and stripped |
| ArtifactDefender.PredictionsShape | Deception/defender.py:270-302 | `predict_next_commands` never returns an empty list: at most `PRED_K` stripped non-empty lines of the response in order, or the five defaults exactly when there is no history, no response or no non-blank line |
| ArtifactDefender.BlankResponseGivesDefaults | Deception/defender.py:296-300 | a response made only of white space falls back to the defaults |
| ArtifactDefender.CreateDefenseCases | Deception/defender.py:204-264 | no response gives one placeholder artifact under `defense_artifacts/`; an unparsable response gives one artifact under `defense_artifacts/` holding the raw text; a parsed response is used as it is, unfixed |
| ArtifactDefender.ForcedPathUnderDir | Deception/defender.py:180-183 | every artifact path ends up under `defense_artifacts`: kept (normalised) when it already starts with it, otherwise replaced by `defense_artifacts/<last component>` |
| ArtifactDefender.MaterializeStep | Deception/defender.py:178-192 | one more artifact extends the returned paths and the written files by its own forced target, and an artifact without a path is skipped |
| ArtifactDefender.TargetsUnderDir | Deception/defender.py:167-194 | every returned path starts with `defense_artifacts` |
| ArtifactDefender.WriteAllKeys | Deception/defender.py:167-194 | writing adds exactly the returned paths to the files present |
| ArtifactDefender.WrittenCountAt | Deception/defender.py:180-194 | the loop stops at artifact `i` exactly when it has a path whose forced target cannot be written |
| ArtifactDefender.WrittenCountAll | Deception/defender.py:180-194 | the loop gets through every artifact exactly when every target named is writable |
| ArtifactDefender.WritesAllExactly | Deception/defender.py:180-194 | a descriptor is written through exactly when every target it names is writable |
| ArtifactDefender.SharedFileIsLost | Deception/defender.py:352-360 | files are not namespaced per command: when two branches list the same file, committing one deletes the file the kept branch wrote |
| ArtifactDefender.LookupStep | Deception/defender.py:321-327 | one more prediction keeps every other and every cached index entry as it was |
| ArtifactDefender.MaterializedStep | Deception/defender.py:329-330 | one more prediction keeps every earlier branch's paths those of its indexed descriptor |
| ArtifactDefender.ChosenAt | Deception/defender.py:321-327 | the loop uses, for each prediction, the truthy indexed descriptor or else the one created from the history |
| ArtifactDefender.PlanIndex | Deception/defender.py:321-327 | after the loop every prediction is indexed with its chosen descriptor, a miss with exactly the created one, and the entries of other commands and of cache hits are unchanged |
| ArtifactDefender.DefenseForStable | Deception/defender.py:321-327 | a prediction repeated later in the list gets the same descriptor as the first time |
| ArtifactDefender.PlanIndexPrefix | Deception/defender.py:321-327 | handling part of the predictions leaves other commands' and cache hits' entries unchanged |
| ArtifactDefender.PlannedCountAt | Deception/defender.py:321-330 | the loop gets past prediction `i` unless its descriptor is the first not written through |
| ArtifactDefender.PlannedCountAll | Deception/defender.py:321-330 | the loop gets through every prediction exactly when every chosen descriptor is written through |
| ArtifactDefender.PlanStopped | Deception/defender.py:321-330 | when the write of prediction `i` raises, the loop handled exactly the predictions up to and including `i` and did not complete |
| ArtifactDefender.PlanCompleted | Deception/defender.py:321-330 | when no write raises, the loop handled every prediction |
| ArtifactDefender.PlanSnoc | Deception/defender.py:321-330 | one more prediction extends the index by its descriptor and writes that descriptor's artifacts up to the first failure |
| ArtifactDefender.AppliedStep | Deception/defender.py:321-330 | from a state the loop reached, the current index picks for the next prediction exactly the descriptor the plan chose |
| ArtifactDefender.WriteDefensesFlat | Deception/defender.py:180-192 | writing the descriptors in turn is one run of all their written artifacts in order |
| ArtifactDefender.LastArtifactWins | Deception/defender.py:180-192 | after a run of artifact writes a path holds the content of the last artifact written there and no later one writes it; a path none writes keeps its content |
| ArtifactDefender.PlanFilesLastWrite | Deception/defender.py:321-330 | after the loop a path holds the content of the last artifact written to it over all predictions handled; other paths keep their content |
| ArtifactDefender.PlannedBranches | Deception/defender.py:330-332 | storing the completed loop's branch map replaces only this session's branch set, with each prediction's written targets |
| ArtifactDefender.Defender.constructor | Deception/defender.py:435-436 | start-up: the history is the loaded file (or empty) and no branch is active |
| ArtifactDefender.Defender.FindExistingDefense | Deception/defender.py:145-151 | the `by_command` entry for the exact command, present exactly when the command is indexed |
| ArtifactDefender.Defender.UpdateHistory | Deception/defender.py:125-131 | the command is appended to this session's list (created if absent), every other session is unchanged, and the history file holds the new state |
| ArtifactDefender.Defender.RegisterDefense | Deception/defender.py:154-161 | `by_command[command]` becomes the descriptor, every other lookup is unchanged, and the index file is saved |
| ArtifactDefender.Defender.MaterializeDefenseArtifacts | Deception/defender.py:167-194 | artifacts are written in order at their forced paths up to the first whose target cannot be written, where the loop raises; the files are the old ones plus exactly those writes; it succeeds, returning every target, exactly when every target named is writable |
| ArtifactDefender.Defender.ObtainDefense | Deception/defender.py:321-327 | a cached descriptor is reused and the index is unchanged; otherwise the one created from the session history is registered |
| ArtifactDefender.Defender.DefendPrediction | Deception/defender.py:321-330 | the index entry becomes the truthy cached descriptor, or on a miss the one created from the session's history, and stays registered even when a write fails; the files are its artifacts' writes up to the first failure; it succeeds exactly when the descriptor is written through, and then its paths are the descriptor's targets |
| ArtifactDefender.Defender.DefendAll | Deception/defender.py:321-330 | it succeeds exactly when the count of chosen descriptors written through reaches the end; index and files are the plan fold (`Applied`) over the predictions handled, all of them or up to and including the first whose write raises; on success one branch per prediction with its written targets, all on disk; other and cached index entries are unchanged |
| ArtifactDefender.Defender.PlanAndApplyDefenses | Deception/defender.py:308-332 | index and files are the plan fold over the predictions handled (up to and including a failing one); when every chosen descriptor is written through the session's branch set becomes the predictions with their targets and other sessions keep theirs; when a write raises no branch set changes |
| ArtifactDefender.Defender.RemovePaths | Deception/defender.py:354-362 | each path is removed from disk when present and removable |
| ArtifactDefender.Defender.RemoveCommands | Deception/defender.py:350-362 | the files of every listed command are removed where removable |
| ArtifactDefender.Defender.CleanupOtherBranches | Deception/defender.py:335-368 | no change when the session has no branch set or the command was not predicted; otherwise the other predictions' files are removed and the branch set becomes `[actual]` with its own paths; other sessions are untouched |
| ArtifactDefender.Defender.CommitBranch | Deception/defender.py:419 | committing gives exactly `CommittedBranches` and `CommittedFiles`: on a hit the session keeps only `[cmd]` with its paths and the removable files of every other prediction are deleted; a miss changes nothing |
| ArtifactDefender.Defender.ExtendAndPlan | Deception/defender.py:422-429 | the history gains the command and is saved; the predictions from it are planned: success exactly when every chosen descriptor is written through, index and files the plan fold over the predictions handled, the new branch set on success and no branch change on failure |
| ArtifactDefender.Defender.HandleNewCommand | Deception/defender.py:407-429 | a blank command changes nothing; otherwise the commit and the plan composed: the history gains the command, index and files are the plan fold applied to the committed files, the branch sets are the committed ones when a write fails and the planned set replaces this session's on success |
| ScenarioDefender.InjectPath | deception/defender.py:119-121 | an absolute artifact path is used as given (a relative one is joined to `cwd` with `\` turned into `/`) |
| ScenarioDefender.AddName | deception/defender.py:134-135 | the listing keeps its names in order at the front, gains the base name, and stays free of repeats when it was |
| ScenarioDefender.PutFile | deception/defender.py:123-135 | an injected file sets `static_files[path]` to its content and leaves the command cache alone |
| ScenarioDefender.PutFileListing | deception/defender.py:127-135 | the listing of the file's parent directory gains its base name (once); every other listing is unchanged |
| ScenarioDefender.InjectArtifactsKeepsCache | deception/defender.py:114-137 | the artifact loop never touches `command_cache` |
| ScenarioDefender.InjectedCache | deception/defender.py:103-110 | a truthy `terminal_output` becomes `command_cache[cwd][command]`, creating the levels it needs and keeping the rest; a falsy one leaves the cache as it was |
| ScenarioDefender.InjectArtifactStatic | deception/defender.py:114-125 | an artifact with a path and content sets `static_files` at its target; any other artifact changes nothing |
| ScenarioDefender.InjectedStatic | deception/defender.py:114-125 | `static_files` gains exactly the injected paths, and every other entry is kept |
| ScenarioDefender.InjectedContent | deception/defender.py:114-125 | each injected path holds the content of the last artifact written there |
| ScenarioDefender.InjectedListingPrefix | deception/defender.py:127-135 | each listing keeps its names, in order, at its front |
| ScenarioDefender.InjectedListingNames | deception/defender.py:127-135 | each listing gains exactly the base names of the artifacts injected into that directory |
| ScenarioDefender.InjectedListingDistinct | deception/defender.py:134-135 | injection never lists a name twice in a listing that had no repeats |
| ScenarioDefender.RemovePath | deception/defender.py:159-161 | an absolute path is removed as given (a relative one is joined to `cwd`, with no `\` conversion) |
| ScenarioDefender.InjectRemovePathsAgree | deception/defender.py:119-161 | injection and removal agree on an artifact's path exactly when it is absolute or its joined form has no backslash |
| ScenarioDefender.RemoveFirst | deception/defender.py:172-173 | `list.remove` takes out one occurrence of the name |
| ScenarioDefender.RemoveOutput | deception/defender.py:149-154 | when the flag is not set the document is unchanged |
| ScenarioDefender.DropFile | deception/defender.py:163-174 | a removed file leaves `static_files` (which is neither created nor dropped) and the cache is untouched; no flag means no change |
| ScenarioDefender.DropFileListing | deception/defender.py:168-174 | one occurrence of the base name leaves its directory's listing; no directory is added or dropped |
| ScenarioDefender.RemovedKeepsCache | deception/defender.py:158-174 | the artifact loop of a removal leaves `command_cache` alone |
| ScenarioDefender.RemovedStatic | deception/defender.py:158-166 | `static_files` loses exactly the artifacts' removal paths, and is neither created nor dropped |
| ScenarioDefender.RemovedFlag | deception/defender.py:147-177 | `changed`, once set, stays set; when it was never set the document is the one loaded, so skipping the save loses nothing |
| ScenarioDefender.RemovedListing | deception/defender.py:168-174 | every listing loses one occurrence of each removed base name, as far as it has them; no directory is added or dropped |
| ScenarioDefender.RemovalEffect | deception/defender.py:142-177 | the whole removal: the command leaves `command_cache[cwd]` and no other cache entry changes, the artifacts' paths leave `static_files`, and an unchanged flag means an unchanged document |
| ScenarioDefender.InjectedFileSurvivesRemoval | deception/defender.py:119-161 | an artifact whose relative path joins to one with a backslash is injected at one path and removed from another, so the injected file survives the removal of its own defence |
| ScenarioDefender.StripFences | deception/defender.py:213 | `re.sub(r"```json|```", "", s)` never lengthens the text |
| ScenarioDefender.Slice | deception/defender.py:218 | Python's `s[start:end]`: empty when `end <= start`, otherwise the characters from `start` to `end` |
| ScenarioDefender.CutWithoutBrace | deception/defender.py:215-218 | with no `{` the cleaned text is parsed whole (the `end != -1` guard never fails) |
| ScenarioDefender.CutWithBrace | deception/defender.py:215-218 | with a `{`, the cut is empty exactly when no `}` follows it, and otherwise runs from the first `{` to the last `}` |
| ScenarioDefender.CreateDefenseCases | deception/defender.py:208-223 | a parsed reply is used as it is; an unparsable one gives the error output for the command and no artifacts |
| ScenarioDefender.PredictionsShape | deception/defender.py:238-249 | `["ls", "id", "whoami"]` without history, `["ls"]` for an empty response, otherwise the first `PRED_K` stripped non-blank lines in order |
| ScenarioDefender.BlankResponsePredictsNothing | deception/defender.py:247-249 | a response made only of white space predicts nothing at all, with no fallback |
| ScenarioDefender.PlanIndexOf | deception/defender.py:264-273 | after the plan loop the index holds the last predicted command |
| ScenarioDefender.PlanIndex | deception/defender.py:262-280 | the index after planning holds every predicted command; an existing entry is reused unchanged, a missing one is the generated defence |
| ScenarioDefender.PlanStep | deception/defender.py:264-278 | one more prediction sets its index entry and injects its defence into the saved scenario |
| ScenarioDefender.ServesStep | deception/defender.py:275-278 | injecting one more defence keeps every earlier prediction's output served |
| ScenarioDefender.PlanServesOutputs | deception/defender.py:252-281 | after planning, the saved scenario serves every prediction's `terminal_output` from `command_cache[cwd]`; with no prediction the scenario file is untouched |
| ScenarioDefender.RemoveFileCache | deception/defender.py:142-154 | after a removal a command is cached for `cwd` exactly when it was and is not the removed one |
| ScenarioDefender.CleanupStep | deception/defender.py:297-303 | one more prediction: it is removed when it is not the actual command and has defence data |
| ScenarioDefender.CleanupCache | deception/defender.py:284-306 | after cleanup a command is cached for `cwd` exactly when it was before and was not a predicted, not-taken command with defence data |
| ScenarioDefender.Defender.constructor | deception/defender.py:350-352 | start-up: the history is the loaded file (or empty) and no branch is active |
| ScenarioDefender.Defender.SaveScenario | deception/defender.py:85-90 | `save_scenario` writes the temporary file and moves it over the scenario: the scenario holds the data and no temporary file is left |
| ScenarioDefender.Defender.UpdateHistory | deception/defender.py:232-235 | the command is appended to this session's list, every other session is unchanged, and the history file holds the new state |
| ScenarioDefender.Defender.InjectPrediction | deception/defender.py:95-139 | the scenario file holds the injected document |
| ScenarioDefender.Defender.RemovePrediction | deception/defender.py:142-177 | the scenario is saved with the removal applied exactly when something was deleted, and otherwise is not written |
| ScenarioDefender.Defender.PlanOne | deception/defender.py:265-278 | one prediction: the defence is the indexed one or the generated one, it is indexed, and it is injected |
| ScenarioDefender.Defender.PlanLoop | deception/defender.py:264-278 | the loop's index and scenario are those of the planning functions, and the branch map holds each prediction's indexed defence |
| ScenarioDefender.Defender.PlanAndApplyDefenses | deception/defender.py:252-281 | the index is saved once after the loop; the scenario is the planned one; the session's branch set becomes the predictions with their defences; other sessions are untouched |
| ScenarioDefender.Defender.CleanupOtherBranches | deception/defender.py:284-306 | with no branch set nothing changes; otherwise every other prediction with defence data is removed from the scenario and the branch set is reset, whether or not the command was predicted |
| ScenarioDefender.Defender.CommitBranch | deception/defender.py:337 | cleanup gives exactly `CommittedBranches` and `CommittedScenario`: a planned session is reset and the scenario file is cleaned of the other predictions' defences; otherwise nothing changes |
| ScenarioDefender.Defender.ExtendAndPlan | deception/defender.py:339-347 | the history gains the command and is saved; the index saved and the scenario file are what planning the predictions from the new history gives, and the session's branch set holds those predictions with their indexed defences; other sessions keep theirs |
| ScenarioDefender.Defender.HandleNewCommand | deception/defender.py:327-347 | no command is skipped, not even a blank one: the history gains it, the scenario file is the cleanup followed by the plan, the index is the plan's, the branch set holds the new predictions with their defences, and other sessions keep theirs |
| ShellBrain.Reloaded | deception/brain.py:26-35 | a document that cannot be read leaves the brain's state as it was |
| ShellBrain.ResolveAbsolute | deception/brain.py:37-41 | from an absolute working directory every target resolves to an absolute path with no empty, `.` or `..` component |
| ShellBrain.FlagsHave | deception/brain.py:45 | a flag letter is set exactly when some argument starting with `-` carries it |
| ShellBrain.ShownNames | deception/brain.py:49-52 | with hidden names shown the listing is kept whole; otherwise exactly its names not starting with `.` are kept |
| ShellBrain.LongLines | deception/brain.py:64-72 | one long-format line per listed name |
| ShellBrain.LsVisible | deception/brain.py:45-54 | without `-a` exactly the names not starting with `.` are shown; with it, `.` and `..` come first and then the whole listing |
| ShellBrain.LsShape | deception/brain.py:43-74 | an empty listing prints nothing; the short format is the sorted permutation of the shown names joined by two spaces; the long format is the header `total <4 x entries>` followed by one line per entry |
| ShellBrain.TargetArg | deception/brain.py:105-109 | the file argument is the first word starting with neither `-` nor `"`, and there is none exactly when every word starts with one of them |
| ShellBrain.GrepLines | deception/brain.py:120 | the kept lines are exactly the lines holding the keyword |
| ShellBrain.CacheHitFirst | deception/brain.py:93-96 | level 0 comes first: a cached answer for the stripped command in this directory is returned, whatever the command |
| ShellBrain.StaticSecond | deception/brain.py:98-122 | without a cache hit, a read of a known static file is answered from it |
| ShellBrain.ListingThird | deception/brain.py:124-131 | without a cache hit or a static read, `ls`, `ll` and `la` are answered by the local listing of the working directory |
| ShellBrain.StaticReads | deception/brain.py:111-122 | a read of a known file: `head` gives its first ten lines, `tail` its last ten, and `cat` and the other readers all of it |
| ShellBrain.StaticFound | deception/brain.py:111-114 | a read whose first argument names a known file is answered from that file |
| ShellBrain.ReadShapes | deception/brain.py:116-122 | what `head`, `tail` and the plain readers show of a file's lines |
| ShellBrain.GrepAnswer | deception/brain.py:118-121 | `grep` on a known file returns exactly the lines holding the keyword (stripped of quotes), joined by line feeds |
| ShellBrain.FileArgument | deception/brain.py:105-109 | the first word after the command is the file argument when it starts with neither `-` nor `"`, so `grep` reads its keyword as the file name |
| ShellBrain.GrepOutput | deception/brain.py:118-121 | the lines `grep` returns are exactly those holding the keyword |
| ShellBrain.LlLaFlags | deception/brain.py:127-129 | `ll` always lists in long format and `la` also shows hidden names |
| ShellBrain.InjectedOutputServed | deception/brain.py:82-96 | after the defender injects an output for a command in a directory, the reloaded brain answers that command, typed with any surrounding blanks, with exactly that output |
| ShellBrain.CyberBrain.constructor | deception/brain.py:12-24 | the first load, from an empty state |
| ShellBrain.CyberBrain.ReloadState | deception/brain.py:26-35 | the state becomes the reloaded one |
| ShellBrain.CyberBrain.StaticLookup | deception/brain.py:102-122 | the argument loop and the lookup return the level-1 answer |
| ShellBrain.CyberBrain.GenerateResponse | deception/brain.py:80-153 | the state is reloaded and the answer is the level-by-level response for the command |
| ShellBrain.CyberBrain.AutocompleteCandidates | deception/brain.py:155-176 | the state is reloaded and the completion is taken against the common commands and the listing of `cwd` |
| ShellBrain.CyberBrain.VisibleNames | deception/brain.py:49-52 | the filtering loop keeps exactly the names `Shown` keeps |
| ShellBrain.CyberBrain.LongListing | deception/brain.py:61-72 | the header followed by one line per entry |
| ShellBrain.CyberBrain.HandleLocalLs | deception/brain.py:43-74 | `_handle_local_ls` computes the listing `LsShape` describes |
| LineEditing.Matching | Deception/Brain.py:124 | keeps exactly the entries starting with the prefix, in order, and every entry for an empty prefix |
| LineEditing.CompleteBlank | Deception/Brain.py:105-106 | a blank buffer yields no partial word and no candidates, and only a blank buffer does |
| LineEditing.CompleteAfterSpace | Deception/Brain.py:110-112 | after a trailing space the partial word is empty and every file of the directory is offered |
| LineEditing.CompleteWord | Deception/Brain.py:113-133 | the partial word is the last word; the candidates are exactly the commands (single word) or the files (later words) that start with it |
| LineEditing.TabTextCompletes | deception/session_handler.py:96-106 | with a single candidate, Tab inserts exactly what turns the partial word into the candidate |
| LineEditing.Start | deception/session_handler.py:84-86 | a new line is empty, the cursor at 0, the history index one past the last entry |
| LineEditing.StepValid | deception/session_handler.py:88-157 | every key keeps the cursor inside the buffer and the history index inside the history |
| LineEditing.EraseUndoesInsert | deception/session_handler.py:110-115 | a typed character lands at the cursor and backspace right after it restores the line |
| LineEditing.CursorKeysKeepText | deception/session_handler.py:138-145 | the left and right arrows change no text; backspace at column 0 changes nothing |
| LineEditing.DownAfterUpDropsDraft | deception/session_handler.py:119-132 | Up from a fresh line recalls the last command and Down then empties the line: the draft is lost |
| LineEditing.DownAfterUp | deception/session_handler.py:119-137 | inside the history, Up then Down returns to the entry it started from |
| LineEditing.Run | deception/session_handler.py:88-157 | any run of keys keeps the editing state valid |
| LineEditing.FirstEnter | deception/session_handler.py:92-94 | the position of the first Enter: no Enter before it, an Enter at it unless the keys run out |
| LineEditing.TypedText | deception/session_handler.py:146-157 | plain ASCII keys typed on a fresh line give back exactly the typed text, cursor at its end |
| LineEditing.LineEditor.constructor | deception/session_handler.py:84-86 | the editor starts in the fresh-line state for this history |
| LineEditing.LineEditor.InsertAll | deception/session_handler.py:101-103 | the character-by-character insertion loop inserts the whole text at the cursor and moves past it |
| LineEditing.LineEditor.Erase | deception/session_handler.py:110-115 | backspace updates the fields as the key step prescribes |
| LineEditing.LineEditor.Arrow | deception/session_handler.py:117-145 | an escape sequence updates the fields as the key step prescribes |
| LineEditing.LineEditor.Feed | deception/session_handler.py:88-157 | each key updates the fields as the key step prescribes and keeps them valid |
| LineEditing.LineEditor.ReadLine | deception/session_handler.py:88-94 | the key loop returns the line the keys up to the first Enter produce, and nothing when the channel runs dry first |
| SessionHandler.PasswdHomeFirst | deception/session_handler.py:38-48 | the home is the sixth field of the first passwd line naming the user with at least six fields; with none, no passwd home is found |
| SessionHandler.DisplayHomePrefix | deception/session_handler.py:73-77 | for a non-root user any directory starting with `/home/<user>` is shown with that prefix as `~`, even a different user's home |
| SessionHandler.PromptShape | deception/session_handler.py:59-60 | the prompt starts with `user@host:` and ends with `# ` exactly for root and `$ ` otherwise |
| SessionHandler.CdUp | deception/session_handler.py:175-179 | `cd ..` drops the last path part, and goes to `/` when at most one part is left |
| SessionHandler.CdOther | deception/session_handler.py:180-190 | `cd ~` goes home, an absolute target is taken as is, and a relative one is appended after the directory's trailing slashes |
| SessionHandler.WgetName | deception/session_handler.py:195-196 | the saved name is non-empty and contains no `/` |
| SessionHandler.WgetHasWord | deception/session_handler.py:194-195 | a `wget` command always has a last word to take the URL from |
| SessionHandler.LogEntryRead | deception/session_handler.py:214-222 | the record a session writes is read back by the defender under `scenario|ip`, with the command and directory it holds |
| SessionHandler.Session.constructor | deception/session_handler.py:34-57 | the session starts in the home the passwd lookup gives, with an empty history |
| SessionHandler.Session.HandleLine | deception/session_handler.py:159-211 | a blank line is skipped; any other is appended to the history; `exit` and `clear` are recognised; exactly `cd` with an argument is answered locally with nothing, exactly a `wget` with the connecting and saved message naming its file, and every other command goes to the brain; `cd` and `wget` change only the directory or the brain's listing |
| LegacyBrain.PredictFutureCases | Deception/Brain.py:48-53 | the guess follows a `wget` in the last command first, then `SELECT` in any case, and is the default otherwise or for an empty history |
| LegacyBrain.CatShortcutServes | Deception/Brain.py:55-97 | `cat` of a static file returns its content whatever the model would say; every other command returns an answer built from the model's reply |
| LegacyBrain.LegacyCdCases | Deception/Brain.py:287-297 | `cd ..` drops the last part or falls back to `/`; an absolute target is taken as is; a relative one, `~` included, is appended |
| LegacyBrain.LegacyCyberBrain.constructor | Deception/Brain.py:29-46 | the brain keeps the scenario's listing and static files |
| LegacyBrain.LegacySession.constructor | Deception/Brain.py:161-166 | the session starts with the scenario's user and directory, and an empty history |
| LegacyBrain.LegacySession.HandleLine | Deception/Brain.py:274-318 | as in the newer handler, but `chmod` is also answered locally with nothing, and `cd ~` is appended like any relative name |
| PromptUtils.BashFenceRemoved | prompting/utils.py:36 | a command wrapped in a bash code fence comes out without the fence |
| PromptUtils.NoFenceKept | prompting/utils.py:36 | text with no fence at either end is left as it is |
| PromptUtils.NoIntroKept | prompting/utils.py:40-45 | text that starts with none of the intro phrases loses nothing |
| PromptUtils.IntroDropped | prompting/utils.py:40-45 | "the next command is:" in any case, with the spaces after it, is removed in front of the command |
| PromptUtils.PlaceholderEnd | prompting/utils.py:26 | a `<...>` placeholder ends just past its first `>` and holds at least one other character |
| PromptUtils.FirstRedirect | prompting/utils.py:61 | the position of the first `>`: none before it, one at it unless the text has none |
| PromptUtils.BeforeRedirect | prompting/utils.py:61 | the part kept is a prefix with no `>`, and the whole segment is kept only when it has no `>` |
| PromptUtils.PathMatch | prompting/utils.py:25 | a path match starts with `/`, `./` or `../` and holds no space |
| PromptUtils.SearchPath | prompting/utils.py:67-71 | the path found is empty or starts with `/`, `./` or `../`, holds no space and is drawn from the segment |
| PromptUtils.SegmentName | prompting/utils.py:63-65 | the command name is the lower-cased longest run of name characters at the start of the cleaned segment |
| PromptUtils.CandidateKeys | prompting/core_topk.py:509 | one key list per candidate, each the candidate's `normalize_for_compare` |
| PromptUtils.CleanTextBlank | prompting/utils.py:33-45 | nothing is left of a blank command once fences and intros are cleaned |
| PromptUtils.NormalizeBlank | prompting/utils.py:29-55 | a blank command yields no segment and hence no key |
| PromptUtils.PipelineKeysGood | prompting/utils.py:47-73 | every key of a pipeline has a well-formed name and path |
| PromptUtils.NormalizeGood | prompting/utils.py:29-75 | every key `normalize_for_compare` returns has a name of name characters only, lower case, and a path that is empty or path-like |
| PromptUtils.NumberingOf | prompting/utils.py:79 | a numbering `N. ` is removed with the spaces after it |
| PromptUtils.CleanOllamaCandidate | prompting/utils.py:77-81 | the cleaned candidate has no whitespace at either end |
| PromptUtils.CleanUnnumbered | prompting/utils.py:77-81 | a stripped line not starting with a digit is only unquoted and stripped |
| PromptUtils.CleanDropsNumbering | prompting/utils.py:77-81 | a numbered line cleans to what its text alone cleans to |
| TopK.SessionOf | prompting/core_topk.py:403-416 | a blank or undecodable line yields nothing and a non-object raises; a kept session has a truthy id and commands of length at least two |
| TopK.Sessions | prompting/core_topk.py:402-416 | the kept sessions, in file order, each with a truthy id and at least two commands, or the exception of the first line that raises |
| TopK.SessionsErr | prompting/core_topk.py:402-416 | loading fails exactly when some line raises |
| TopK.LoadedSessions | prompting/core_topk.py:417-423 | the sessions the window loop reads, each with at least two commands, or the exception the loop raises first |
| JsonValue.Chars | prompting/core_topk.py:421-422 | slicing and indexing a string give one one-character string per character |
| JsonValue.CommandList | prompting/core_topk.py:418-422 | the window loop raises exactly on commands without `len` or a dictionary of two or more keys; a string gives its characters and a list of strings itself, and a readable value keeps its length |
| JsonValue.CommandLists | prompting/core_topk.py:417-423 | every session read keeps at least the commands its length promised |
| JsonValue.CommandListsErr | prompting/core_topk.py:417-423 | the loop raises exactly when some session's commands raise |
| TopK.SessionTasks | prompting/core_topk.py:419-423 | the first n tasks of a session, task i being the one built at index i |
| TopK.AllTasksCount | prompting/core_topk.py:417-423 | a session of n commands yields n-1 tasks, summed over the sessions |
| TopK.SessionTaskShape | prompting/core_topk.py:419-423 | task i has a non-empty context ending with command i, at most `context_len` long, and expects command i+1 |
| TopK.SingleTasks | prompting/core_topk.py:425-437 | one task per single command, with that command as its context and no expected command |
| TopK.BuildTasksModes | prompting/core_topk.py:385-437 | with an existing sessions file the tasks are built exactly when the sessions load and their windows are read without an exception, and then every task expects a command; single mode expects none; with neither mode the run is refused |
| TopK.AllTasksExpect | prompting/core_topk.py:417-423 | every task built from sessions expects a command |
| TopK.Select | prompting/core_topk.py:440-443 | with n > 0 at most n tasks remain, all drawn from the original tasks; otherwise all are kept |
| TopK.GeminiCandidates | prompting/core_topk.py:475-477 | at most k candidates, each non-empty and stripped |
| TopK.HitRank | prompting/core_topk.py:503-524 | the 1-based rank of the first candidate that hits, every earlier one missing, and 0 only when none hits |
| TopK.TaskRank | prompting/core_topk.py:503-507 | a task without an expected command never ranks; no rank exceeds the candidate count |
| TopK.RecordOf | prompting/core_topk.py:454-540 | a task's record keeps the prediction task and never ranks past its candidates |
| TopK.FindHit | prompting/core_topk.py:508-524 | the loop with its early `break` finds exactly the first hitting rank |
| TopK.HitRankIsFirst | prompting/core_topk.py:508-524 | the first-hit rank is unique: any rank that hits with all earlier candidates missing is it |
| TopK.ScoreTask | prompting/core_topk.py:474-524 | scoring one reply gives the prediction task's record, which is consistent |
| TopK.CountsOrdered | prompting/core_topk.py:519-527 | rank-1 hits never exceed hits, and hits never exceed tasks with a candidate |
| TopK.Evaluate | prompting/core_topk.py:450-540 | one record per task in order; the three counters count exactly the rank-1 hits, the hits and the non-empty answers, and `top1 <= topk <= non_empty <= tasks` |
| TopK.RecordsStep | prompting/core_topk.py:540 | appending the next task's record keeps the records aligned with the tasks |
| TopK.RecordsConsistent | prompting/core_topk.py:529-540 | every record the loop makes is consistent |
| TopK.Tally | prompting/core_topk.py:519-527 | one more record moves each counter by one exactly when the record hits, hits first, or has a candidate |
| TopK.SingleModeNoHits | prompting/core_topk.py:504 | single mode never counts a hit |
| RagIndex.DocId | prompting/core_rag.py:109 | every document id starts with `sess_` |
| RagIndex.WindowCount | prompting/core_rag.py:97 | a session has one window fewer than its commands, and an empty session none |
| RagIndex.SessionDocs | prompting/core_rag.py:97-109 | the first n windows of a session, document i being the one built at step i |
| RagIndex.SessionDocsShape | prompting/core_rag.py:97-109 | a session of m commands gives m-1 documents; document i holds window i joined with ` \|\| `, expects command i+1 and is named after the line and the step |
| RagIndex.RawSession | prompting/core_rag.py:93-95 | a line gives a session exactly when it decodes to an object, with the default id and an empty list for absent fields |
| RagIndex.ReadSession | prompting/core_rag.py:93-101 | a line is read exactly when it decodes to an object whose commands the window loop reads, and the commands are what that loop reads: a list of strings, or a string as its characters |
| RagIndex.StringCommandsIndexed | prompting/core_rag.py:97-101 | a session whose commands are a string is indexed one character per command |
| RagIndex.UnsliceableCommandsBad | prompting/core_rag.py:97-99 | commands that are a number, a boolean, `null` or a dictionary of two or more keys make the line unreadable |
| RagIndex.FileDocs | prompting/core_rag.py:89-109 | every document records a line number inside the file, blank lines counted |
| RagIndex.LineDocsLine | prompting/core_rag.py:107 | the documents of a line all record that line's position |
| RagIndex.FileDocsSnoc | prompting/core_rag.py:89 | reading one more line appends exactly that line's documents |
| RagIndex.FirstBad | prompting/core_rag.py:93 | the first line `json.loads` rejects: every earlier line reads, and it does not |
| RagIndex.FirstBadStep | prompting/core_rag.py:89-93 | a readable line before the first bad one moves the reading point past it |
| RagIndex.ChunksCover | prompting/core_rag.py:112-117 | the batches added hold every document exactly once and in order; none is empty or larger than the limit, and all but the last are full |
| RagIndex.ChunksSnoc | prompting/core_rag.py:112-114 | flushing one more batch after full ones appends exactly that batch |
| RagIndex.CrashIndexed | prompting/core_rag.py:93 | an unreadable line ends the run with the flushed part of the earlier documents, fewer than one batch short |
| RagIndex.DoneIndexed | prompting/core_rag.py:117 | a run that reads every line leaves exactly all the lines' documents |
| RagIndex.IndexStart | prompting/core_rag.py:75 | before the first line nothing is built and no batch is flushed |
| RagIndex.Retriever.constructor | prompting/core_rag.py:54-62 | the store opens with what an earlier run persisted |
| RagIndex.Retriever.PushSession | prompting/core_rag.py:97-114 | a session's documents are appended to store and buffer together, with every full buffer flushed as one batch |
| RagIndex.Retriever.IndexLine | prompting/core_rag.py:89-114 | a blank line adds nothing, an unreadable one is reported, and any other adds its documents |
| RagIndex.Retriever.IndexStep | prompting/core_RAG.py:87-115 | one line is indexed; the run stops there only when the line cannot be read and such lines are not skipped |
| RagIndex.Retriever.IndexLoop | prompting/core_rag.py:89-114 | the loop over the lines either crashes as `Indexed` describes or leaves every document in store and buffer, with less than a batch in the buffer |
| RagIndex.Retriever.IndexLines | prompting/core_rag.py:75-117 | indexing an existing file into an empty store leaves what `Indexed` describes, and the batches added are its chunks |
| RagIndex.Retriever.IndexFile | prompting/core_rag.py:65-117 | a missing file or a non-empty store changes nothing; otherwise the store ends as `Indexed` describes |
| RagIndex.Retrieve | prompting/core_rag.py:122-146 | an empty context or an empty answer retrieves nothing |
| RagIndex.CleanLinesCount | prompting/core_rag.py:255 | exactly one candidate per non-blank line |
| RagIndex.CandidatesCount | prompting/core_rag.py:253-256 | an answer of m non-blank lines gives exactly min(k, m) candidates |
| RagIndex.BlankAnswerNoCandidates | prompting/core_rag.py:253-259 | an answer with no visible character gives no candidate and counts as an empty response |
| RagIndex.TaskLinesAsWritten | prompting/core_rag.py:205-207 | the prediction task lines are chosen only when n > 0; with n <= 0 the selection fails |
| RagIndex.TaskLines | prompting/core_rag.py:204-207 | every line when n <= 0, else a sample of min(n, lines) of them |
| RagIndex.AllSessionsUnbound | prompting/core_rag.py:205-207 | with n = 0 the code as written fails where every line was meant to be taken |
| RagIndex.TaskLinesAgree | prompting/core_rag.py:205-207 | where n > 0 the corrected selection agrees with the code as written |
| RagScoring.HitsSplit | prompting/core_rag.py:320-323 | the hits influenced by the store and the clean ones add up to all the hits |
| RagScoring.HitsBounded | prompting/core_rag.py:253-289 | rank-1 hits never exceed hits, and hits never exceed the tasks with a candidate |
| RagScoring.Tally | prompting/core_rag.py:258-289 | one more record moves each counter by one exactly when it hits, hits first, or has no candidate |
| RagScoring.Scored | prompting/core_rag.py:240-303 | one record per task scored so far |
| RagScoring.ScoredAt | prompting/core_rag.py:240-303 | record j is the score of task j |
| RagScoring.ScoredStep | prompting/core_rag.py:240-303 | scoring one more task appends its record and moves the counters as `Tally` says |
| RagScoring.CountOutcome | prompting/core_rag.py:258-289 | the three running counters grow exactly by what the record contributes |
| RagScoring.Summarize | prompting/core_rag.py:306-323 | no records ends the run with its message; otherwise the totals are counted over the records, flagged plus clean hits equal the hits, and `top1 <= topk <= total - empty` |
| RagDbHit.IndexForEvaluation | prompting/core_rag.py:193-195 | the index file when one is named, else the sessions file, is indexed into the store as `Indexed` describes; a missing file or a filled store changes nothing |
| RagDbHit.MoveInIff | prompting/core_rag.py:154-161 | the retrieved text hits exactly when some `Attacker Next Move:` line is followed by a line that strips to the target |
| RagDbHit.HitDb | prompting/core_rag.py:152-161 | the loop with its early return answers exactly the hit predicate |
| RagDbHit.ExampleLines | prompting/core_rag.py:141-145 | each retrieved example carries the next-move header line followed by the document's next command |
| RagDbHit.RetrieveEnds | prompting/core_rag.py:122-146 | the retrieved text is empty or ends with a line feed |
| RagDbHit.MoveInExtend | prompting/core_rag.py:155-159 | a next move found in some lines is still found with more lines after them |
| RagDbHit.MoveInShift | prompting/core_rag.py:155-159 | a next move found in some lines is still found with more lines before them |
| RagDbHit.RetrievedNextMoveHits | prompting/core_rag.py:245-248 | when the query returns a document whose next command is the expected one, the prediction task is flagged as a store hit |
| RagDbHit.TaskOfLineShape | prompting/core_rag.py:211-221 | a task's context and expected command are consecutive commands of its session, the context at most `context_len` long and starting at the first command when shorter |
| RagDbHit.TaskOfReadLine | prompting/core_rag.py:210-221 | a line with a task was read, has commands, and its task expects the drawn command after the commands before it |
| RagDbHit.LineTasks | prompting/core_rag.py:207-223 | at most one task per selected line |
| RagDbHit.LineTaskSource | prompting/core_rag.py:207-223 | every task comes from one of the selected lines |
| RagDbHit.LineTaskKept | prompting/core_rag.py:207-223 | every selected line that gives a task contributes it |
| RagDbHit.BuildTasks | prompting/core_rag.py:198-228 | a missing sessions file and an empty task list end the run with their messages; otherwise the tasks are not empty |
| RagDbHit.AllLinesTasks | prompting/core_rag.py:204-207 | with n <= 0 the intended selection draws tasks from every non-blank line |
| RagDbHit.CompareSegments | prompting/core_rag.py:271-284 | the inner `while` loop answers exactly whether the segment counts match and the first segments agree by name and path |
| RagDbHit.MatchRank | prompting/core_rag.py:269-289 | the 1-based rank of the first candidate that agrees, every earlier one disagreeing, 0 only when none agrees |
| RagDbHit.MatchRankIsFirst | prompting/core_rag.py:269-289 | the first agreeing rank is unique |
| RagDbHit.RankCandidates | prompting/core_rag.py:269-289 | the candidate loop with its early exit finds exactly that rank |
| RagDbHit.OutcomeRanked | prompting/core_rag.py:253-298 | a task's record keeps the prediction task and the parsed candidates, and never ranks past them |
| RagDbHit.OutcomeRank | prompting/core_rag.py:245-298 | the record's rank is the first agreeing candidate and its flag is the store-hit test on what was retrieved |
| RagDbHit.ExpectableStep | prompting/core_rag.py:265-267 | a task whose expected command normalises to something lets the loop go on |
| RagDbHit.ScoreTask | prompting/core_rag.py:241-298 | scoring stops exactly at an expected command that normalises to nothing; otherwise it gives the prediction task's record |
| RagDbHit.Evaluate | prompting/core_rag.py:232-304 | the records of the tasks scored, in order; the run stops early exactly at the first task whose expected command has no key; the counters count the hits, rank-1 hits and empty answers |
| RagDbHit.CompletedRunSummary | prompting/core_rag.py:306-323 | a completed run summarises all tasks, with `top1 <= topk <= total - empty` and store-influenced plus clean hits equal to the hits |
| RagContamination.IndexForEvaluation | prompting/core_RAG.py:188-190 | unreadable lines are skipped, so the store ends with every readable line's windows; a missing file or a filled store changes nothing |
| RagContamination.FindIffContains | prompting/core_RAG.py:156 | `find` locates the target exactly when the target occurs in the text |
| RagContamination.CheckContamination | prompting/core_RAG.py:153-156 | a stripped target shorter than four characters is never reported |
| RagContamination.ContaminationFound | prompting/core_RAG.py:153-156 | a task is reported exactly when its stripped target has four or more characters and occurs in the retrieved text |
| RagContamination.DbHitIsContamination | prompting/core_RAG.py:153-156 | whenever the next-move test of the other evaluation hits on a target of four or more characters, this check reports it too |
| RagContamination.WindowTasks | prompting/core_RAG.py:210-214 | one task per window of the session |
| RagContamination.WindowTasksAt | prompting/core_RAG.py:210-214 | task i is window i with command i+1 as the expected one |
| RagContamination.WindowTaskShape | prompting/core_RAG.py:210-214 | a task's context and expected command are consecutive commands of the session, the context ending at command i and at most `context_len` long |
| RagContamination.TaskIsWindow | prompting/core_RAG.py:205-214 | each task of a line is a window of that line's session |
| RagContamination.LineTasks | prompting/core_RAG.py:203-214 | a line with tasks is non-blank and readable, and its tasks are its session's windows |
| RagContamination.ReadSessionAnyName | prompting/core_RAG.py:103 | whether a line is read, and its commands, do not depend on the default session name |
| RagContamination.TasksAreIndexedWindows | prompting/core_RAG.py:94-106 | each task's context is a document the indexer built from the same line, with the expected command as its next command: the store holds the answers |
| RagContamination.LineDocsRead | prompting/core_RAG.py:88-106 | the documents of a readable line are its session's windows |
| RagContamination.TaskSource | prompting/core_RAG.py:202-216 | every task comes from a window of a selected line |
| RagContamination.TaskKept | prompting/core_RAG.py:202-216 | every window of every selected line is a task |
| RagContamination.BuildTasks | prompting/core_RAG.py:193-221 | a missing sessions file and an empty task list end the run with their messages; otherwise the tasks are not empty |
| RagContamination.MatchRank | prompting/core_RAG.py:257-274 | the 1-based rank of the first candidate that matches, every earlier one not matching, 0 only when none does |
| RagContamination.MatchRankIsFirst | prompting/core_RAG.py:264-274 | the first matching rank is unique |
| RagContamination.RankCandidates | prompting/core_RAG.py:264-274 | the candidate loop, passing over candidates with no key and stopping at the first match, finds exactly that rank |
| RagContamination.LooserThanDbHitRule | prompting/core_RAG.py:264-274 | a candidate the other evaluation's rule accepts is accepted here too, at that rank or earlier |
| RagContamination.OutcomeRanked | prompting/core_RAG.py:247-290 | a task's record keeps the prediction task and the parsed candidates, and never ranks past them |
| RagContamination.OutcomeRank | prompting/core_RAG.py:238-290 | the record's rank is the first matching candidate and its flag is the contamination check on what was retrieved |
| RagContamination.ScoreTask | prompting/core_RAG.py:234-290 | scoring one task gives its record |
| RagContamination.Evaluate | prompting/core_RAG.py:225-293 | every task is scored, in order, and the counters count the hits, rank-1 hits and empty answers |
| RagContamination.RunSummary | prompting/core_RAG.py:297-300 | the summary covers all tasks, with `top1 <= topk <= total - empty` and contaminated plus clean hits equal to the hits |
| OllamaTopK.PathMatch | evaluate_ollama_topk.py:32 | a path match starts with `/`, `./` or `~`, has at least one more character and holds no blank |
| OllamaTopK.SearchPath | evaluate_ollama_topk.py:56-59 | the path found is empty or such a match, and occurs in the text |
| OllamaTopK.Cleaned | evaluate_ollama_topk.py:45-50 | the cleaned command has no whitespace at either end |
| OllamaTopK.FirstWord | evaluate_ollama_topk.py:52-53 | the name match of a text starting with a visible character is its first word |
| OllamaTopK.NormalizeForCompareSpec | evaluate_ollama_topk.py:35-61 | always one pair: ("", "") for empty input; otherwise the name is empty exactly when nothing is left after cleaning, else the lower-cased first word, and the path is empty or a path-like run with no blank taken from the cleaned text |
| OllamaTopK.LowerWordNoSpace | evaluate_ollama_topk.py:61 | the lower-cased first word holds no blank |
| OllamaTopK.FenceSpan | evaluate_ollama_topk.py:75 | the body of the leftmost fenced block lies inside the response |
| OllamaTopK.FenceBodyInside | evaluate_ollama_topk.py:75-77 | the fenced body is a slice of the response |
| OllamaTopK.Renumbered | evaluate_ollama_topk.py:85-91 | the cleaned lines are non-empty and no more than the lines |
| OllamaTopK.SplitSeps | evaluate_ollama_topk.py:95 | at least one part, none holding a comma or a semicolon |
| OllamaTopK.Dedup | evaluate_ollama_topk.py:100-105 | the first occurrences: no duplicates, and exactly the same items |
| OllamaTopK.IndexOf | evaluate_ollama_topk.py:103 | the first position holding the item |
| OllamaTopK.IndexOfPrefix | evaluate_ollama_topk.py:103 | a first occurrence in a prefix is the first occurrence in the whole |
| OllamaTopK.DedupOrder | evaluate_ollama_topk.py:100-105 | deduplication keeps the order of first occurrences |
| OllamaTopK.DedupPrefix | evaluate_ollama_topk.py:102-107 | deduplicating more candidates only extends the result |
| OllamaTopK.CandidateLines | evaluate_ollama_topk.py:63-117 | an empty response gives no candidate, and never more than k are returned |
| OllamaTopK.LineCandidates | evaluate_ollama_topk.py:81-117 | without a fenced block never more than k candidates |
| OllamaTopK.CandidateLinesCases | evaluate_ollama_topk.py:75-83 | a fenced block gives a prefix of its non-blank stripped lines; with at least k non-blank lines the result is the first k of them |
| OllamaTopK.FallbackIsDedup | evaluate_ollama_topk.py:95-107 | when the separator fallback finds something, the result is the first k first occurrences |
| OllamaTopK.SeparatorFallback | evaluate_ollama_topk.py:95-107 | the fallback keeps first occurrences only, with no duplicates, in their original order, all drawn from the candidates |
| OllamaTopK.StrippedNonEmptyAppend | evaluate_ollama_topk.py:81 | the non-blank stripped lines of two runs of lines are those of each, in order |
| OllamaTopK.FirstOccurrences | evaluate_ollama_topk.py:100-107 | the `seen` loop returns the first k first occurrences |
| OllamaTopK.DedupStep | evaluate_ollama_topk.py:102-105 | one more candidate is kept exactly when it was not seen before |
| OllamaTopK.StrippedNonEmptyStep | evaluate_ollama_topk.py:111-114 | one more line adds itself, stripped, exactly when it is not blank |
| OllamaTopK.StrippedNonEmptyTake | evaluate_ollama_topk.py:111-116 | once k non-blank lines are found, or every line seen, those are the first k non-blank lines |
| OllamaTopK.FirstLines | evaluate_ollama_topk.py:109-116 | the last fallback loop returns the first k non-blank stripped lines |
| OllamaTopK.CandidateLinesFromResponse | evaluate_ollama_topk.py:63-117 | the parser with its two loops returns exactly the candidates `CandidateLines` describes |
| OllamaTopK.SessionOf | evaluate_ollama_topk.py:176-187 | a blank or undecodable line is skipped and a non-object raises; a kept session has a truthy id and truthy commands of any type |
| OllamaTopK.LoadSessions | evaluate_ollama_topk.py:174-187 | the loaded sessions, in file order, each with a truthy id and truthy commands, or the exception of the first line that raises |
| OllamaTopK.SessionSteps | evaluate_ollama_topk.py:210-214 | step i of a session is its window ending at command i, expecting command i+1 |
| OllamaTopK.AllStepsShape | evaluate_ollama_topk.py:206-214 | every step comes from a transition of some session, with a non-empty context no longer than `context_len` |
| OllamaTopK.SessionStepShape | evaluate_ollama_topk.py:210-214 | every step of a session is the step of one of its transitions |
| OllamaTopK.TransitionStep | evaluate_ollama_topk.py:211-214 | the step built for transition i is that transition's step |
| OllamaTopK.PrepareSteps | evaluate_ollama_topk.py:170-214 | a missing sessions file ends the run with its message, and a failed ping ends it too |
| OllamaTopK.SelectSteps | evaluate_ollama_topk.py:216-218 | with n > 0 at most n steps remain, all drawn from the original ones; otherwise all are kept |
| OllamaTopK.KeyHitOneWay | evaluate_ollama_topk.py:246-251 | a hit here is a hit under the two-way prefix rule of the other evaluation, but not conversely: only a candidate path that is a prefix of the expected one counts |
| OllamaTopK.HitRank | evaluate_ollama_topk.py:242-257 | the 1-based rank of the first candidate that hits, every earlier one missing, 0 only when none hits |
| OllamaTopK.HitRankIsFirst | evaluate_ollama_topk.py:242-257 | the first hitting rank is unique |
| OllamaTopK.CandidateKeys | evaluate_ollama_topk.py:269 | one key per candidate, each the candidate's normalised form |
| OllamaTopK.RecordOf | evaluate_ollama_topk.py:228-275 | the record keeps the step, never ranks past its candidates, and its ranked candidate hits |
| OllamaTopK.FindHit | evaluate_ollama_topk.py:242-257 | the loop with its `break` finds exactly the first hitting rank |
| OllamaTopK.ScoreStep | evaluate_ollama_topk.py:229-275 | scoring one step gives its record |
| OllamaTopK.CountsOrdered | evaluate_ollama_topk.py:252-260 | rank-1 hits never exceed hits, which never exceed answers with a candidate |
| OllamaTopK.Tally | evaluate_ollama_topk.py:252-260 | one more record moves each counter by one exactly when it hits, hits first, or has a candidate |
| OllamaTopK.RecordsStep | evaluate_ollama_topk.py:275 | appending the next step's record keeps the records aligned with the steps |
| OllamaTopK.Evaluate | evaluate_ollama_topk.py:224-276 | one record per step in order; the counters count exactly the hits, rank-1 hits and non-empty answers, and `top1 <= topk <= non_empty <= steps` |
| LlmEval.PhraseLen | evaluate_LLM.py:66 | the leading phrase match never runs past the line |
| LlmEval.CleanPrediction | evaluate_LLM.py:38-71 | the cleaned prediction has no whitespace at either end |
| LlmEval.StripCharsIn | evaluate_LLM.py:68 | stripping characters from both ends leaves a slice of the text |
| LlmEval.StripIn | evaluate_LLM.py:71 | stripping whitespace leaves a slice of the text |
| LlmEval.TailIn | evaluate_LLM.py:60-61 | the stripped text after a position occurs in the line |
| LlmEval.AfterColonIn | evaluate_LLM.py:57-66 | the line cut down by the colon or phrase rule still occurs in the line |
| LlmEval.TrimmedIn | evaluate_LLM.py:68-71 | removing quotes and trailing punctuation leaves a slice of the text |
| LlmEval.CleanPredictionIn | evaluate_LLM.py:38-71 | the cleaned prediction is a piece of the model's answer, and of its first non-blank line when there is one |
| LlmEval.ColonRule | evaluate_LLM.py:59-63 | with a colon followed by visible text on the first line, the prediction comes from the text after the colon |
| LlmEval.ColonPrediction | evaluate_LLM.py:59-71 | under the colon rule the prediction is the trimmed, stripped text after the first colon |
| LlmEval.ColonCandidate | evaluate_LLM.py:59-63 | with a colon followed by a visible character the line becomes the stripped text after it |
| LlmEval.PredictionOfFirst | evaluate_LLM.py:50-53 | once some line is not blank, the prediction is computed from the first such line alone |
| LlmEval.TrailingDotKept | evaluate_LLM.py:70 | the answer `x. .` cleans to `x.`: trailing punctuation separated by a blank from earlier punctuation survives |
| LlmEval.ExactMatchProps | evaluate_LLM.py:73-74 | exact match is symmetric, and a blank prediction never matches a non-blank expected command |
| LlmEval.TokenRuns | evaluate_LLM.py:84-85 | every token is a non-empty run of token characters |
| LlmEval.Overlap | evaluate_LLM.py:88-90 | the overlap lies between 0 and 1 and is 1 exactly for equal token sets |
| LlmEval.JaccardTokens | evaluate_LLM.py:79-90 | the score lies between 0 and 1 and is 0 when either text is empty |
| LlmEval.JaccardProps | evaluate_LLM.py:79-90 | the score is symmetric and is 1 exactly when both texts are non-empty with the same non-empty token set |
| LlmEval.JaccardIgnoresCase | evaluate_LLM.py:84-85 | the score ignores the case of ASCII letters |
| LlmEval.PairOf | evaluate_LLM.py:226-232 | a line gives a pair exactly when it decodes to an object with `context` and `next` or `target`, and the pair keeps its context |
| LlmEval.LoadPairs | evaluate_LLM.py:223-232 | at most one pair per line |
| LlmEval.LoadPairsExactly | evaluate_LLM.py:223-232 | the pairs loaded are exactly the pairs of the lines that make one |
| LlmEval.ModelChain | evaluate_LLM.py:247-249 | the chain starts with the primary model and holds it only there, followed by exactly the fallbacks other than it |
| LlmEval.ChainKeepsOrder | evaluate_LLM.py:249 | the fallbacks keep their order in the chain |
| LlmEval.FirstResponse | evaluate_LLM.py:272-287 | the first model that responded, every earlier one having failed |
| LlmEval.TryChain | evaluate_LLM.py:272-287 | the pair is answered exactly when some model responds; otherwise the last model's reason is kept |
| LlmEval.CallChain | evaluate_LLM.py:272-287 | the loop with its `break` gives exactly that outcome |
| LlmEval.FirstResponseIs | evaluate_LLM.py:272-277 | a response with only failures before it is where the chain stops |
| LlmEval.Score | evaluate_LLM.py:312-315 | the token score lies between 0 and 1; scoring raises exactly for a non-empty prediction against a truthy expected value that is not a string |
| LlmEval.FewShot | evaluate_LLM.py:240-244 | no examples unless `few_shot > 0`, else the first `few_shot` pairs |
| LlmEval.EntryOf | evaluate_LLM.py:264-327 | a pair whose prompt cannot be built raises before any call; a record carries an error exactly when every model failed, and then no match and an empty prediction |
| LlmEval.EntryRaises | evaluate_LLM.py:264-315 | a pair's step raises exactly when its prompt cannot be built, or an answer is scored against a truthy expected value that is not a string |
| LlmEval.Steps | evaluate_LLM.py:263-333 | one step per pair, step k being pair k's record |
| LlmEval.EvaluatePair | evaluate_LLM.py:264-327 | one pass of the loop builds the prompt, calls the chain and records the pair, and the record fails exactly when every model failed |
| LlmEval.Entries | evaluate_LLM.py:258-333 | one record per pair, each the pair's record, or an exception that some pair's step raises |
| LlmEval.Evaluate | evaluate_LLM.py:258-333 | the loop's records are the pairs' records, and `failed` counts the failed ones |
| LlmEval.BadExampleStopsRun | evaluate_LLM.py:180-189 | a few-shot example whose context cannot be joined, or whose expected command is not a string, makes every pair raise, so the run records nothing |
| LlmEval.JaccardSum | evaluate_LLM.py:339 | the sum of the token scores lies between 0 and the number of records |
| LlmEval.MeanAtMostOne | evaluate_LLM.py:339 | the mean token score lies between 0 and 1 |
| LlmEval.Summarize | evaluate_LLM.py:336-358 | no record ends in a division by zero; otherwise exact matches and failures never exceed the total, and the mean token score lies between 0 and 1 |
| LlmEval.PreparePairs | evaluate_LLM.py:213-238 | without an API key the run ends; otherwise the pairs are a non-empty file's loaded pairs cut to at most n |
| OpenRouterEval.FirstNonBlank | evaluate_LLM_OpenRouter.py:17 | the line picked is empty only when no line has a visible character |
| OpenRouterEval.FirstNonBlankIsFirst | evaluate_LLM_OpenRouter.py:17 | the picked line, stripped, is the first non-blank stripped line, and there is none exactly when no line is non-blank |
| OpenRouterEval.NormalizeCmd | evaluate_LLM_OpenRouter.py:12-18 | the normalised command is single-spaced |
| OpenRouterEval.NormalizeCmdSpec | evaluate_LLM_OpenRouter.py:12-18 | "" for "", otherwise one line with no whitespace at either end, empty exactly when the unfenced text has no non-blank line |
| OpenRouterEval.ReplaceAbsent | evaluate_LLM_OpenRouter.py:16 | replacing a pattern that does not occur changes nothing |
| OpenRouterEval.DefencedAbsent | evaluate_LLM_OpenRouter.py:16 | a text without a triple backtick loses nothing to fence removal |
| OpenRouterEval.NormalizeCmdFixpoint | evaluate_LLM_OpenRouter.py:12-18 | a command already normalised is left as it is, so normalising is idempotent on its own results |
| OpenRouterEval.Jaccard | evaluate_LLM_OpenRouter.py:20-26 | the score lies between 0 and 1 |
| OpenRouterEval.WordsEmpty | evaluate_LLM_OpenRouter.py:21 | a text has no word exactly when it is blank |
| OpenRouterEval.JaccardProps | evaluate_LLM_OpenRouter.py:20-26 | the score is symmetric, 1 exactly when the word sets agree (two blank texts included), 0 when exactly one text is blank |
| OpenRouterEval.Score | evaluate_LLM_OpenRouter.py:162-183 | the record keeps the context and the normalised expected command; exact means an equal non-empty prediction and implies a score of 1; an error is recorded exactly when the call failed, with an empty prediction |
| OpenRouterEval.StepOf | evaluate_LLM_OpenRouter.py:149-192 | an item that is not an object raises; one without context or expected command, or whose context is already done, is skipped; a scored item is the `Score` of its context and normalised expected command |
| OpenRouterEval.Steps | evaluate_LLM_OpenRouter.py:149-192 | one outcome per item, outcome k being item k's step |
| OpenRouterEval.Somes | evaluate_LLM_OpenRouter.py:185 | no more records than items |
| OpenRouterEval.SomesSnoc | evaluate_LLM_OpenRouter.py:185 | one more item adds its record exactly when it was scored |
| OpenRouterEval.SomesElems | evaluate_LLM_OpenRouter.py:185 | the records written are exactly the scored items' records |
| OpenRouterEval.TalliedSnoc | evaluate_LLM_OpenRouter.py:188-191 | one more record moves each counter by exactly what it adds; near matches exclude exact ones |
| OpenRouterEval.SteppedNext | evaluate_LLM_OpenRouter.py:149-192 | one pass either raises, ending the run with that exception, or extends the outcomes and records |
| OpenRouterEval.Evaluate | evaluate_LLM_OpenRouter.py:141-192 | the loop's records are those `Records` describes, or the first exception, and the four counters are tallied over them |
| OpenRouterEval.Rate | evaluate_LLM_OpenRouter.py:196-198 | a rate lies between 0 and 1 and is 0 for no record |
| OpenRouterEval.CountDisjoint | evaluate_LLM_OpenRouter.py:189-190 | two counts of properties no record has at once add up to at most the records |
| OpenRouterEval.RatesAddUp | evaluate_LLM_OpenRouter.py:196-197 | the rates of two disjoint counts add up to at most 1 |
| OpenRouterEval.Summarize | evaluate_LLM_OpenRouter.py:194-201 | every rate lies between 0 and 1, all are 0 with no record, and the exact and near rates add up to at most 1 |
| OpenRouterEval.KeyOf | evaluate_LLM_OpenRouter.py:134-139 | a line gives a resume key exactly when it decodes to an object |
| OpenRouterEval.ResumeKeys | evaluate_LLM_OpenRouter.py:131-139 | every key read from the results file is in the resume set |
| OpenRouterEval.RecordJson | evaluate_LLM_OpenRouter.py:172-185 | a written record reads back with its context as its key |
| OpenRouterEval.Written | evaluate_LLM_OpenRouter.py:185 | one line per record, each the record's object |
| OpenRouterEval.RerunSkipsEverything | evaluate_LLM_OpenRouter.py:131-160 | a second run over the same input, reading the file the first run appended to, calls the model for nothing and writes nothing |
| OpenRouterEval.ResumeKeysGrow | evaluate_LLM_OpenRouter.py:133-139 | reading more lines keeps every key already read |
| OpenRouterEval.WrittenKeys | evaluate_LLM_OpenRouter.py:133-139 | the key of every record a run appends is read back |
| OpenRouterEval.SkippedOnRerun | evaluate_LLM_OpenRouter.py:152-160 | an item the first run skipped or scored is skipped by a run that knows those keys |
| OpenRouterEval.LoadItems | evaluate_LLM_OpenRouter.py:144-145 | blank lines are dropped, and loading succeeds only when every other line decodes |
| OpenRouterEval.Prepare | evaluate_LLM_OpenRouter.py:127-145 | without an API key the run ends, and so does a missing input file; otherwise the resume keys come from the results file when it exists and the items from the input file |
| Finetune.PromptOf | fine_tuning/convert_sessions_to_finetune.py:60 | the prompt is the fixed head, the history joined by line feeds, and the fixed tail |
| Finetune.ContextTextOf | fine_tuning/convert_sessions_to_finetune.py:60 | the history can be read back out of a prompt |
| Finetune.Texts | fine_tuning/convert_sessions_to_finetune.py:57-60 | one text per command, each string command giving its own text |
| Finetune.StringRun | fine_tuning/convert_sessions_to_finetune.py:60 | the commands before the first one that is not a string |
| Finetune.CommandsOf | fine_tuning/convert_sessions_to_finetune.py:50-52 | a list of fewer than two commands and a falsy value are skipped; a kept list has at least two commands |
| Finetune.Windows | fine_tuning/convert_sessions_to_finetune.py:55-68 | a session of m commands writes m-1 examples, example i prompting with commands 0..i and answering command i+1; a command that is not a string stops the writing where the join raises |
| Finetune.WindowsOfStrings | fine_tuning/convert_sessions_to_finetune.py:54-68 | for string commands: m-1 examples, the first prompting with the first command alone, each answering the next command, and each history the previous history plus the previous answer: the history grows from the start, it is not a bounded window |
| Finetune.HistoryGrows | fine_tuning/convert_sessions_to_finetune.py:57-60 | example i+1's history is example i's history followed by its answer |
| Finetune.JoinGrows | fine_tuning/convert_sessions_to_finetune.py:60 | one more command extends the joined history by a line feed and that command |
| Finetune.TextsSnoc | fine_tuning/convert_sessions_to_finetune.py:57 | one more command in the history adds its text at the end |
| Finetune.LineOutput | fine_tuning/convert_sessions_to_finetune.py:40-52 | a blank line, an undecodable line and an object without commands write nothing |
| Finetune.ConvertTotal | fine_tuning/convert_sessions_to_finetune.py:39-68 | a run without exception writes exactly the total number of windows of its sessions |
| Finetune.WriteWindows | fine_tuning/convert_sessions_to_finetune.py:55-68 | the inner loop appends exactly the session's examples, and raises where `Windows` says |
| Finetune.ResumesNext | fine_tuning/convert_sessions_to_finetune.py:40-68 | one line further, its examples join the output or its exception ends the run |
| Finetune.ConvertFrom | fine_tuning/convert_sessions_to_finetune.py:40-68 | the run from a line is that line's output followed by the run from the next |
| Finetune.ConvertLine | fine_tuning/convert_sessions_to_finetune.py:41-68 | one pass of the outer loop appends the line's examples |
| Finetune.ConvertSessions | fine_tuning/convert_sessions_to_finetune.py:29-71 | the script writes exactly the examples `Convert` describes, and stops at the same exception |
| CowrieNormalize.RunFromMaximal | inspectDataset/analyze_and_clean.py:41 | a greedy `\s*`-style run takes every matching character from its start and stops at the first one that does not match |
| CowrieNormalize.RunFromIs | inspectDataset/analyze_and_clean.py:41 | any maximal run of matching characters is the one the greedy run measures |
| CowrieNormalize.DropCmdTag | inspectDataset/analyze_and_clean.py:41 | a text starting `CMD:` loses the tag and the blanks after it; any other text is left as it is |
| CowrieNormalize.TripleEnd | inspectDataset/analyze_and_clean.py:44-45 | a `[\.\w-]*\d{3,}` match ends at least three characters after its start and inside the text |
| CowrieNormalize.TmpFile | inspectDataset/analyze_and_clean.py:44-45 | a temporary-file match starts at its directory prefix and ends inside the text |
| CowrieNormalize.FileName | inspectDataset/analyze_and_clean.py:46 | a file-name match starts at a word boundary on a file-name character, and a dot followed by a letter lies inside its run |
| CowrieNormalize.Url | inspectDataset/analyze_and_clean.py:47 | a URL match starts with `http://`, `https://` or `ftp://` and is non-empty |
| CowrieNormalize.Groups | inspectDataset/analyze_and_clean.py:48 | dotted digit groups start with a digit and end inside the text |
| CowrieNormalize.Ip | inspectDataset/analyze_and_clean.py:48 | an address match starts with a digit and has a word boundary at both ends |
| CowrieNormalize.EchoDashE | inspectDataset/analyze_and_clean.py:42 | an `echo -e "..."` match is non-empty and inside the text |
| CowrieNormalize.EchoPasswd | inspectDataset/analyze_and_clean.py:43 | an `echo "..."\|passwd` match is non-empty and inside the text |
| CowrieNormalize.EchoAdmin | inspectDataset/analyze_and_clean.py:49 | an `echo "admin ..."` match is non-empty and inside the text |
| CowrieNormalize.NormalizeCommand | inspectDataset/analyze_and_clean.py:39-51 | the normal form has no blank at either end, no line break, and exactly one space between words |
| CowrieNormalize.SubNoMatch | inspectDataset/analyze_and_clean.py:41-49 | `re.sub` with a pattern that matches nowhere returns the text unchanged |
| CowrieNormalize.SubFromNoSpace | inspectDataset/analyze_and_clean.py:41-49 | substituting with a blank-free replacement keeps a blank-free text blank-free |
| CowrieNormalize.EchoNoMatch | inspectDataset/analyze_and_clean.py:42-49 | the three echo patterns leave a blank-free text alone |
| CowrieNormalize.PlainNoMatch | inspectDataset/analyze_and_clean.py:44-48 | the file, URL and address patterns leave alone a text without slash, dot, colon or digit |
| CowrieNormalize.CollapseWord | inspectDataset/analyze_and_clean.py:50 | collapsing blanks leaves a single blank-free word as it is |
| CowrieNormalize.CmdTagIgnored | inspectDataset/analyze_and_clean.py:40-41 | a command with Cowrie's `CMD:` tag and blanks in front has the same normal form as the command alone |
| CowrieNormalize.BareTag | inspectDataset/analyze_and_clean.py:41 | a bare tag followed only by blanks becomes empty |
| CowrieNormalize.UrlMasked | inspectDataset/analyze_and_clean.py:47 | a command that is a single http, https or ftp URL normalises to `<URL>`, whatever the address |
| CowrieNormalize.IpMasked | inspectDataset/analyze_and_clean.py:48 | a command that is a dotted address of four groups of one to three digits normalises to `<IP>` |
| CowrieNormalize.DottedUnmasked | inspectDataset/analyze_and_clean.py:41-47 | digits and dots pass the tag, echo, file and URL stages unchanged |
| CowrieNormalize.EchoPasswordMasked | inspectDataset/analyze_and_clean.py:43 | `echo "<password>"\|passwd` normalises to `echo <SECRET>\|passwd`, keeping nothing of the password |
| CowrieNormalize.PlaceholderSteps | inspectDataset/analyze_and_clean.py:48-50 | the `<URL>` and `<IP>` placeholders pass the later stages unchanged |
| CowrieNormalize.SecretSingleSpaced | inspectDataset/analyze_and_clean.py:42-43 | the password placeholder is already in normal spacing |
| CowrieClean.EventId | inspectDataset/analyze_and_clean.py:84-85 | the event id is read from an object event; a list or object id, or a non-object event, raises |
| CowrieClean.CommandOf | inspectDataset/analyze_and_clean.py:86-94 | only a `cowrie.command.input` event gives a command, which is a non-empty string; a non-empty `data` field is the one used |
| CowrieClean.RawCommand | inspectDataset/analyze_and_clean.py:95-97 | the stored command is stripped; without the `CMD: ` prefix it is the command stripped |
| CowrieClean.GroupSessions | inspectDataset/analyze_and_clean.py:81-97 | the three nested loops compute the grouping `Group` defines, exception included |
| CowrieClean.GroupSummary | inspectDataset/analyze_and_clean.py:81-97 | after the loops each session holds its commands in event order, sessions are listed in the order of their first command, and every event is counted by its id |
| CowrieClean.AnalyzeEventShape | inspectDataset/analyze_and_clean.py:84-97 | one event adds one to its id's count and appends its command, if any, to its session, listing a new session last |
| CowrieClean.FirstSeenKeys | inspectDataset/analyze_and_clean.py:78-97 | the insertion order lists each session once, and exactly the sessions with a command |
| CowrieClean.KeepLine | inspectDataset/analyze_and_clean.py:57-62 | a line is kept exactly when it decodes to a record with at least `min_length` commands; an undecodable line is skipped; a record with a command list never raises |
| CowrieClean.FilterShort | inspectDataset/analyze_and_clean.py:53-66 | every kept record is long enough, and no more are kept than there were lines |
| CowrieClean.FilterShortSessions | inspectDataset/analyze_and_clean.py:53-66 | the filtering loop keeps what `FilterShort` describes, exception included |
| CowrieClean.FilterShortErr | inspectDataset/analyze_and_clean.py:56-62 | an exception on an earlier line is the outcome of the whole pass |
| CowrieClean.FilterShortRecords | inspectDataset/analyze_and_clean.py:53-66 | on the records the tool writes, the pass raises nothing and keeps exactly the long ones, in file order |
| CowrieClean.FirstDate | inspectDataset/analyze_and_clean.py:72 | the search finds the leftmost `dddd-dd-dd`, and none when there is none |
| CowrieClean.FileDate | inspectDataset/analyze_and_clean.py:71-73 | the date is `unknown` exactly when the base name holds no date, otherwise the leftmost date in it |
| CowrieClean.SessionRecord | inspectDataset/analyze_and_clean.py:111 | a record has exactly the keys session, commands and source_file, with the commands in order |
| CowrieClean.Records | inspectDataset/analyze_and_clean.py:110-111 | one record per session, in insertion order |
| CowrieClean.AnalyzeOk | inspectDataset/analyze_and_clean.py:68-145 | the analysis raises exactly when the grouping loops do |
| CowrieClean.AnalyzeReport | inspectDataset/analyze_and_clean.py:68-145 | RAW and CLEAN keep the same sessions (those with at least five commands), RAW with the stripped commands and CLEAN with their normal forms; `n_sessions` counts every session with a command; the event table counts every event by its id |
| CowrieClean.GroupFacts | inspectDataset/analyze_and_clean.py:81-99 | every grouped session has a command, `len(sessions)` is the number of distinct sessions with a command, and the counter counts every event |
| CowrieClean.KeptRecords | inspectDataset/analyze_and_clean.py:109-133 | the RAW and CLEAN lists pair up entry by entry, the CLEAN one holding the normal forms |
| CowrieClean.RecordsKept | inspectDataset/analyze_and_clean.py:53-66 | filtering written records keeps the records of exactly the sessions with enough commands |
| CowrieClean.CleanAll | inspectDataset/analyze_and_clean.py:131-133 | the `if cleaned` test drops no session, since every grouped session has a command |
| CowrieClean.CleanCmdsLength | inspectDataset/analyze_and_clean.py:131 | normalising keeps the number of commands of a session |
| CowrieClean.SessionsCount | inspectDataset/analyze_and_clean.py:99 | `len(sessions)` is the length of the insertion order |
| CowrieStream.EventsOf | inspectDataset/analyze_and_clean.py:83 | a list is iterated item by item; a number, boolean or null raises; a string or object iterates only when empty |
| CowrieStream.EvSteps | inspectDataset/analyze_and_clean.py:83 | one step per event, in order, tagged with the session id |
| CowrieStream.StreamAppend | inspectDataset/analyze_and_clean.py:81-83 | the events of two lists of session objects are the events of the first followed by those of the second |
| CowrieStream.FoldAppend | inspectDataset/analyze_and_clean.py:81-97 | running the loop body over two runs of events is running it over the second from where the first left off; an exception ends the run |
| CowrieStream.FoldLast | inspectDataset/analyze_and_clean.py:81-97 | a run that completes completed its last event as well |
| CowrieStream.FoldEvents | inspectDataset/analyze_and_clean.py:83-97 | the event loop computes the fold of its body over the events |
| CowrieStream.FoldItems | inspectDataset/analyze_and_clean.py:82-97 | the loop over `session_obj.items()` computes the fold over their events |
| CowrieStream.FoldStream | inspectDataset/analyze_and_clean.py:81-97 | the three nested loops compute the fold over the whole event stream |
| CowrieStream.StreamPrefixed | merge_cowrie_datasets.py:41 | every event of the walk carries the prefix in front of its session id |
| CowrieMerge.RawEntry | merge_cowrie_datasets.py:68 | the raw session gets the command stripped |
| CowrieMerge.CleanEntry | merge_cowrie_datasets.py:73-75 | the clean session gets the normal form exactly when it is not empty |
| CowrieMerge.FilesStepsAppend | merge_cowrie_datasets.py:28-43 | the events of two lists of files are those of the first then those of the second |
| CowrieMerge.MergedRecord | merge_cowrie_datasets.py:111-114 | a merged line has exactly the keys session and commands, with the commands in order |
| CowrieMerge.MergedRecords | merge_cowrie_datasets.py:109-114 | one line per session, in insertion order |
| CowrieMerge.MergeFile | merge_cowrie_datasets.py:31-75 | the loops over one file continue the fold from the state they are given, exception included |
| CowrieMerge.MergeAll | merge_cowrie_datasets.py:11-142 | the whole merge computes what `Merge` defines, including the early return when no file is found |
| CowrieMerge.FilesNext | merge_cowrie_datasets.py:28-75 | one file further, the merge state is the fold over that file from the state the earlier files left |
| CowrieMerge.FilesStop | merge_cowrie_datasets.py:28-75 | an exception in an earlier file is the outcome of the merge |
| CowrieMerge.MergeSummary | merge_cowrie_datasets.py:28-75 | after the loops the raw and clean sessions hold their contributions in event order, listed in the order of first contribution, and both counters count every event |
| CowrieMerge.MergeEventShape | merge_cowrie_datasets.py:43-75 | one event adds one to both counters and appends its stripped command to the raw session and its non-empty normal form to the clean one |
| CowrieMerge.CleanNoLonger | merge_cowrie_datasets.py:68-75 | each clean session is no longer than the raw session of the same id |
| CowrieMerge.FirstOfKeys | merge_cowrie_datasets.py:21-25 | the insertion order lists each session once, and exactly the sessions with a contribution |
| CowrieMerge.CollectedFrom | merge_cowrie_datasets.py:39-75 | a session with a contribution has an event in the stream |
| CowrieMerge.FilesDated | merge_cowrie_datasets.py:31-41 | every event of a file carries that file's date prefix |
| CowrieMerge.KeysCount | merge_cowrie_datasets.py:84 | `len(sessions)` is the length of the insertion order |
| CowrieMerge.CleanWithinRaw | merge_cowrie_datasets.py:68-75 | every clean session has a raw session of the same id at least as long, so there are no more clean sessions than raw ones |
| CowrieMerge.MergeNone | merge_cowrie_datasets.py:13-16 | the merge returns early, writing nothing, exactly when no file is found |
| CowrieMerge.MergeFacts | merge_cowrie_datasets.py:11-142 | the files are taken in sorted order; each sessions file holds one line per session in first-contribution order with its commands in event order; clean sessions are no more than raw ones; both event tables are equal |
| CowrieMerge.MergedIdsDated | merge_cowrie_datasets.py:31-41 | every merged id starts with `<date>_` for one of the files |
| Windows.Window | prompting/core_rag.py:98-99 | the context window is a run of consecutive commands ending at command `i` |
| Windows.WindowShape | prompting/core_rag.py:98-99 | with a context length of at least one, the window ends with command `i` and holds `min(i + 1, L)` commands |
| Windows.WindowRun | prompting/core_rag.py:97-101 | the window followed by its target, command `i + 1`, is a run of consecutive commands |
| Windows.Before | prompting/core_rag.py:218-219 | the context is a run of consecutive commands ending just before command `j` |
| Windows.BeforeShape | prompting/core_rag.py:218-219 | the context holds `min(j, L)` commands, never command `j` itself, and nothing for a negative length |
| Windows.BeforeRun | prompting/core_rag.py:218-221 | the context followed by the expected command is a run of consecutive commands |
| PyPath.JoinPath | deception/brain.py:41 | joining with an absolute path gives that path; otherwise the result starts with the directory and ends with the relative part |
| PyPath.NormPathAbsolute | deception/brain.py:37-41 | an absolute path normalises to an absolute path of proper names only: every `.`, `..` and empty part is resolved away |
| PyPath.BaseName | inspectDataset/analyze_and_clean.py:71 | the base name is the slash-free tail of the path |
| PyPath.DirName | evaluate_ollama_topk.py:200 | the directory name is a prefix of the path, and empty for a path without a slash |
| StringOrder.SortProps | merge_cowrie_datasets.py:13 | `sorted` gives an ordered permutation of the file names |
| PyText.SplitLinesNoBreak | evaluate_ollama_topk.py:81 | no line `splitlines` gives holds a line break |
| PyText.NonBlankLinesOfBlank | evaluate_ollama_topk.py:81 | a text made only of white space gives no candidate line |
| PyText.NonBlankLineIn | evaluate_ollama_topk.py:81 | every stripped non-blank line occurs in the text |
| PyText.StripEmptyIffAllSpace | evaluate_ollama_topk.py:81 | `ln.strip()` is empty exactly when the line is all white space |
| PyText.SplitWsTokens | evaluate_LLM_OpenRouter.py:18 | every word `split()` gives is non-empty and free of white space |
| PyText.CollapsedSingleSpaced | evaluate_LLM_OpenRouter.py:18 | `" ".join(s.split())` has single blanks between words and none at the ends |
| PyText.JoinSplitWsSingleSpaced | evaluate_LLM_OpenRouter.py:18 | collapsing an already single-spaced text gives it back |
| PyText.JoinSplitOn | deception/session_handler.py:176 | joining the parts of `split(sep)` with `sep` gives the text back |

## Left out

- Language-model and generator calls are not modelled: `query_gemini` (including its exit on a 404), `query_ollama`, `call_openrouter`, and their retries, back-off and rate-limit sleeps are network I/O. Each call is a function parameter that returns the reply text, or a given list of replies.
- The vector store is not modelled: ChromaDB collections, embeddings and similarity search are external. The store is the list of its documents, and a query's answer is a given text.
- The paramiko SSH server, sockets, threads, the escape-byte output sent to the client and `deception/main.py` are transport. The line editor works on the characters received, and the answers are returned values.
- `subprocess` calls (`sudo tee`, `sudo rm`), `os.makedirs`, and reading and writing files are side effects. The filesystem is a map from path to content. `load_json` is "the stored value, or the default when it is missing or malformed". Saving is an overwrite of the stored value.
- The sleep and seek-to-end of `follow_log` are left out. The log is modelled as the list of lines appended to it.
- Floating point is left out. This covers `statistics.mean` and `median`, hit-rate percentages, the averages in the summaries, the Jaccard ratios of evaluate_LLM.py and evaluate_LLM_OpenRouter.py (kept as exact fractions of set sizes), and the `difflib.SequenceMatcher` ratio.
- Randomness is left out: `random.sample`, `shuffle` and `randint` become given values (the sample, the drawn index). So are the random sizes and dates of the long `ls` format, `time.time()` metadata, and Python's salted `hash()` in the fallback file names of Deception/defender.py.
- The prompt templates and whitelist texts are fixed strings with nothing to prove. This covers the prompts of prompting/core_topk.py and prompting/utils_topk.py and `make_rag_prompt`. Prompts appear in the model as given texts.
- Regular-expression classes `\d`, `\w` and `\b` are ASCII only. Python's are Unicode-aware, so a non-ASCII digit or letter is treated as "other". `\s` and `isspace` use Python's full white-space set. `re.I` matching covers ASCII letters only.
- prompting/core_topk.py:479: with `--provider ollama`, the script calls `utils.clean_llm_response`, which prompting/utils.py does not define. Only the Gemini parsing of candidates is modelled.
- `tqdm` progress bars and every `print` are left out.
- The duplicated scripts are not part of this model:
  - evaluate_GEMINI_topk.py and the thin wrappers under prompting/;
  - prompting/evaluate_GEMINI_RAG.py;
  - the root copies analyze_and_clean.py and analyze_cowrie_dataset.py;
  - build_prediction_dataset.py.
  They repeat code that is modelled here.
- The scripts that do only I/O or orchestration are not part of this model:
  - the Honeypot fake shells;
  - utilities_script/download_zenodo.py and utilities_script/vector_research.py;
  - inspectDataset/merge_cowrie_datasets.py (subprocess orchestration and a random split);
  - evaluate_ollama.py, evaluate_llm_predictions.py and inspect_cowrie_json.py;
  - deception/fake_honeypot.py and deception/config.py.
- Python dictionaries are modelled as maps, plus an explicit insertion order wherever the output follows that order: session files, merged ids and candidate lists. The branch-artifact maps of the defenders have no order, because the model's final states do not depend on it.
- PredictFutureCases: Python's `upper()` is Unicode-aware, so `ſ` (U+017F) becomes `S` and `ß` becomes `SS`. A last command such as `ſelect` gets the SQL guess in Deception/Brain.py:52. The model's `Upper` maps ASCII letters only and gives the default guess there.
- HandleLine (LegacyBrain.LegacySession.HandleLine): Deception/Brain.py:45 and 351 hand every session thread the same `SCENARIO_CONFIG` filesystem dictionary. A `wget` in one session (Brain.py:303-304) therefore shows in every other session's `ls`. Each modelled brain holds its own filesystem value, so this sharing between concurrent sessions is not modelled.
- IndexLine (RagIndex.Retriever.IndexLine): a `commands` list holding a non-string counts as unreadable, and none of its windows is indexed. prompting/core_rag.py:97-108 builds the windows before the first non-string, and the last of those windows has the non-string as its target. It raises at the first window whose context holds the non-string. So a list whose only non-string is its last command is indexed whole. Documents here have string targets, and the store's handling of other metadata values is external.
- IndexForEvaluation (RagDbHit.IndexForEvaluation and RagContamination.IndexForEvaluation): both inherit the gap above. In prompting/core_RAG.py the per-line `try` keeps the windows built before the raise.
- BuildTasks (RagContamination.BuildTasks, and RagDbHit.TaskOfLine): a line whose `commands` list holds a non-string gives no task here. prompting/core_RAG.py and prompting/core_rag.py keep its tasks, because slicing and indexing do not raise. The evaluation loop then raises on such a task, in `retrieve`'s join or in the `strip` of its expected value, after the earlier records were written.
- SessionOf (TopK.SessionOf and OllamaTopK.SessionOf): a session whose commands are a list holding a non-string gives no task here. prompting/core_topk.py and evaluate_ollama_topk.py keep it, and its tasks carry the non-string into the prompt, whose `"\n".join` raises.
- PrepareSteps (OllamaTopK.PrepareSteps): evaluate_ollama_topk.py raises the `TypeError` of commands without `len`, or of a dictionary that cannot be sliced, only after it has opened (and truncated) the output file. The model's error leaves the files alone.
- MaterializeDefenseArtifacts (ArtifactDefender.Defender.MaterializeDefenseArtifacts): an artifact `content` that is not a string is not represented. Deception/defender.py:189-191 would open the file, leaving it empty, and then raise `TypeError` in `write`.
- CreateDefenseFixed (HoneypotDefender.CreateDefenseFixed, and HoneypotDefender.CreateDefense): a reply that parses to JSON of the wrong shape is not represented, because `decode` yields a descriptor or nothing. Honeypot/roles/defender/files/defender2.py raises on three such replies: a top-level value that is not an object (`in` at lines 509-510), an artifact that is not an object (`a.get` at line 524), and an artifact whose `path` is null (`os.path.basename`). The model has no run that raises there.
- CreateDefenseCases (ArtifactDefender.CreateDefenseCases, and ArtifactDefender.CreateDefense): a parsed reply that is not an object, or that has `"artifacts": null`, is not represented. Deception/defender.py registers it as it is. Every later `materialize_defense_artifacts` on it then raises at lines 181-182, where `defense.get` or the `for` over `None` fails.
- CreateDefenseCases (ScenarioDefender.CreateDefenseCases, and ScenarioDefender.CreateDefense): a parsed reply that is not an object, or that has `"artifacts": null`, is not represented. deception/defender.py:104 or 114 raises on it, and the exception leaves `main`'s loop (lines 360-364). A truthy `terminal_output` that is not a string is cached as it is by lines 105-109, and the model cannot hold such a value either.
- ObtainDefense (HoneypotDefender.Defender.ObtainDefense and ArtifactDefender.Defender.ObtainDefense): a cached descriptor is truthy in Python when it has any key, including keys the model drops (`{"note": 1}`). The defenders then reuse it (defender2.py:419-423, Deception/defender.py:321-323). `Present` sees only the modelled keys, so the model reads such an entry as absent and creates a new descriptor.
- GroupSessions (CowrieClean.GroupSessions): Python's `Counter` treats `true` and `1`, and `false` and `0`, as one key. The model counts such event ids apart.

## Findings

| source | as written | input that shows it | evidently intended | confidence | as-written member | corrected member |
|---|---|---|---|---|---|---|
| prompting/core_rag.py:205-207 | `random_lines` is bound only when `n > 0`, but the loop reads it unconditionally, so `n <= 0` raises `UnboundLocalError` before any task is built | `--n 0`, which the comment on line 204 says means "every session" | with `n <= 0` every non-blank line of the sessions file is used | not executed | RagIndex.TaskLinesAsWritten (shown by RagIndex.AllSessionsUnbound) | RagIndex.TaskLines (agreement for `n > 0` in RagIndex.TaskLinesAgree) |
