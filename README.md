# DAG Dependency Explorer — dependency lookup

This project models the query logic of the DAG Dependency Explorer, a small
Streamlit dashboard. The user uploads a JSON object that maps each DAG name to
the list of its direct child DAGs. If no file is uploaded, a built-in sample is
used. The user then enters a DAG name, and the dashboard shows:

- the upstream DAGs: every key whose child list contains the name, in the
  dict's key order;
- the downstream DAGs: the child list stored under the name, exactly as
  stored, or the empty list;
- the relevant DAGs: the set of the upstream DAGs, the name itself and the
  downstream DAGs.

An empty name is rejected, and all three results are then empty.

All of it is in `dag_dependency_explorer.dfy`, module `DagDependencyExplorer`.
The dependency map is a `seq<(string, seq<string>)>` in insertion order,
because Python dicts keep insertion order and the upstream list follows it.
`DistinctKeys` says that no key occurs twice, which always holds for a Python
dict. `Downstream`, `GenerateCheckTasks` and the lemmas that need it take this
as a precondition. `Upstream` does not need it.

The lookup is single-hop, as in the code: there is no transitive closure, no
deduplication of child lists, no reverse-adjacency index and no error for an
unknown name. A name that is neither a key nor a child gets empty upstream and
downstream lists, and its relevant set is the name alone (`IsolatedName`).

## Model

| member | source | states |
|---|---|---|
| `DagDependencyExplorer.Upstream` | streamlit_app.py:44-45 | `p` is in the result iff some entry has key `p` and a child list containing the name; the result is a subsequence of the keys in insertion order; it has at most one element per entry |
| `DagDependencyExplorer.UpstreamIsUnique` | streamlit_app.py:44-45 | if the keys are distinct, any list that holds exactly the parents of the name, in key order, equals the upstream list, so the contract of `Upstream` determines its result |
| `DagDependencyExplorer.UpstreamDistinct` | streamlit_app.py:45 | each key is visited once, so the upstream list has no repeats and is no longer than the number of distinct keys |
| `DagDependencyExplorer.NoParentsNoUpstream` | streamlit_app.py:45 | a name that is in no child list has an empty upstream list |
| `DagDependencyExplorer.Downstream` | streamlit_app.py:47-48 | the result is the child list stored under the name, exactly as stored and with repeats kept; it is `[]` when the name is not a key (`dict.get` with default `[]`) |
| `DagDependencyExplorer.UpstreamDownstreamDuality` | streamlit_app.py:44-48 | `p` is upstream of `c` iff `p` is a key and `c` is in the downstream list of `p` |
| `DagDependencyExplorer.GenerateCheckTasks` | streamlit_app.py:50-60 | an empty name gives `([], [], {})` whatever the map; otherwise the upstream and downstream lists, and the relevant set is `set(upstream) ∪ {name} ∪ set(downstream)` |
| `DagDependencyExplorer.RelevantMembers` | streamlit_app.py:56-60 | for a non-empty name, `d` is relevant iff `d` is the name, a parent of the name, or a child in the name's entry |
| `DagDependencyExplorer.RelevantSize` | streamlit_app.py:59 | the relevant set has at most `|upstream| + 1 + |downstream|` elements |
| `DagDependencyExplorer.IsolatedName` | streamlit_app.py:44-60 | a non-empty name that is neither a key nor a child gets empty upstream and downstream lists, and its relevant set is the name alone |
| `DagDependencyExplorer.SampleHasDistinctKeys` | streamlit_app.py:21-31 | `SampleConfig` holds the nine entries of `sample_json` in order, with line 22's repeated child kept; its keys are distinct |
| `DagDependencyExplorer.SampleUpstream` | streamlit_app.py:21-45 | in the sample, the upstream list of `i1147_gfc_tns` is `i1146_pnr_gfc_daily`, `i1146_pnr_gfc_weekly`, `i1148_lws_gfc_weekly`, in that order |
| `DagDependencyExplorer.SampleDownstreamKeepsDuplicates` | streamlit_app.py:21-48 | in the sample, the downstream list of `i0001_ivo_hdr_weekly` is its two-element child list, with the repeated child kept |
| `DagDependencyExplorer.SampleCheckTasks` | streamlit_app.py:21-60 | the full query on `i1147_gfc_tns`, which is not a key of the sample, gives three parents, no children, and those three and the name as the relevant set |

## Left out

- Data_Engineering_AI.py is not part of this model. It holds CSV upload, pandas cleaning, floating-point scaling, plotting, an HTTP call to a chat API and session state. All of these are I/O, UI, floats or library calls.
- The Streamlit rendering in streamlit_app.py is not modelled: the uploader, the text input, the columns and the success, info and warning messages (lines 4-18 and 62-97).
- The `st.error` message on an empty name (line 52) is a UI side effect. Only the early return value is modelled.
- JSON parsing and its failure path (lines 33-42) are library calls and are not modelled. The model starts from a parsed map.
- A failed parse leaves the config as `None` (line 39). A later query with a non-empty name would then raise on `.items()`. The model assumes a map is present.
- JSON values that are not lists of strings are not modelled. For a string value, Python's `in` at line 45 would test for a substring. Child lists are `seq<string>` here.
- The display-time `sorted(relevant)` at line 93 is formatting by a library sort and is not modelled. The relevant result is a set.
- Duplicate keys in the uploaded JSON are not modelled. The JSON parser keeps only the last one, so the dict never holds a key twice. This is the `DistinctKeys` precondition.
