# Controle de Diárias — a verified model of the page logic

The application keeps a list of allowance records ("diárias"). Each record holds an id, the soldier's name (`militar_nome`), an amount (`valor`) and a creation date. Amounts are whole numbers of centavos, so R$ 150,50 is 15050 and the monthly allotment of R$ 60.000 is 6000000. From that list the single page derives:

- the filtered list: a case-insensitive name search plus a minimum and a maximum value;
- the total spent over all records;
- the remaining balance of the fixed monthly allotment;
- a per-soldier summary of count and sum, sorted by sum, largest first.

The page also has handlers that insert, edit and delete records through a remote store. The page's state fields are modelled as a class whose methods are those handlers.

The model has six modules, one file each:

| file | module | contents |
|---|---|---|
| `wrappers.dfy` | `Wrappers` | `Option` |
| `texto.dfy` | `Texto` | `toUpperCase` / `toLowerCase`, `trim`, `includes`, and the name normalisation `toUpperCase().trim()` |
| `numeros.dfy` | `Numeros` | the text form of an amount: `toString` (`Mostrar`) and `parseFloat` (`Interpretar`, a left-to-right scan of the numeral at the start of the text, where `None` is NaN) |
| `diarias.dfy` | `Diarias` | the record, the filter, the total spent and the balance, as functions with lemmas |
| `resumo.dfy` | `Resumo` | the per-soldier summary (details below) |
| `pagina.dfy` | `Pagina` | the page component `Home` as a class (details below) |

In `Resumo`:

- the `forEach` grouping is a method with a loop over a map;
- the entries and the sort are functions;
- lemmas state what the summary contains and how it is ordered.

In `Pagina`, the class fields mirror the React state. Each handler is a method:

- the store's answer to a request is a parameter;
- every request sent is appended to the `chamadas` log, so "no store call" means "the log is unchanged".

## Model

| member | source | states |
|---|---|---|
| Texto.Contem | src/app/page.tsx:107-109 | `includes` holds exactly when the query occurs at some position of the name |
| Texto.Maiusculas | src/app/page.tsx:46 | `toUpperCase` keeps the length and maps each character to its upper-case form |
| Texto.Minusculas | src/app/page.tsx:107-109 | `toLowerCase` keeps the length and maps each character to its lower-case form |
| Texto.MinusculasDeMaiusculas | src/app/page.tsx:107-109 | lower-casing an upper-cased string gives the lower-cased original, so the name search cannot tell an upper-cased name from the typed one |
| Texto.Aparar | src/app/page.tsx:43 | `trim` never lengthens the text, and what it leaves neither starts nor ends with whitespace |
| Texto.ApararCorreto | src/app/page.tsx:43 | `trim` removes only whitespace, from both ends; the result neither starts nor ends with whitespace; it is empty exactly when the input is all whitespace (the blank test of the insert guard) |
| Texto.EmBranco | src/app/page.tsx:43 | `!s.trim()` holds exactly when every character of the text is whitespace (the empty text included) |
| Texto.Normalizar | src/app/page.tsx:46 | the name written by `toUpperCase().trim()` has no lower-case letter and no whitespace at either end |
| Texto.NormalizarCorreto | src/app/page.tsx:46 | the stored name `toUpperCase().trim()` is the upper-cased input with only whitespace cut from its two ends; it has no lower-case letter and no whitespace at either end; it is empty exactly when the typed name is blank; normalising it again changes nothing |
| Texto.NormalizarNormalizado | src/app/page.tsx:84 | a name already upper-case and trimmed is written back unchanged |
| Texto.ExemploNormalizar | src/app/page.tsx:46 | "  joão silva " is stored as "JOÃO SILVA" |
| Numeros.Mostrar | src/app/page.tsx:76 | `toString` writes a non-empty text that starts with a minus sign exactly when the amount is negative |
| Numeros.Varrer | src/app/page.tsx:47 | the scan of `parseFloat` yields only digits before and after the point, and at least one digit in all |
| Numeros.Interpretar | src/app/page.tsx:47 | `parseFloat` gives a number only for text that holds a digit |
| Numeros.InterpretarMostrar | src/app/page.tsx:76 | `parseFloat` of `valor.toString()` gives `valor` back, centavos included, so the edit draft holds the record's own amount |
| Numeros.InterpretarSemDigito | src/app/page.tsx:110-115 | empty text, a lone "-", a lone "." and "-." read as NaN |
| Numeros.InterpretarLetraInicial | src/app/page.tsx:110-115 | text starting with a letter ("a1") reads as NaN |
| Numeros.InterpretarPrefixo | src/app/page.tsx:47 | `parseFloat` reads the numeral at the start and ignores the rest: "1a" is one real |
| Numeros.InterpretarCentavos | src/app/page.tsx:47 | "100.5" reads as R$ 100,50 |
| Numeros.ZeroFinalNaoMuda | src/app/page.tsx:47 | a trailing zero after the point does not change the amount read |
| Numeros.ZerosFinaisNaoMudam | src/app/page.tsx:47 | any run of trailing zeros after the point leaves the amount read as it was |
| Numeros.InterpretarZerosFinais | src/app/page.tsx:47 | "100.500" reads as R$ 100,50 |
| Numeros.InterpretarSoZeros | src/app/page.tsx:47 | "1.000" reads as one real |
| Diarias.CasaNome | src/app/page.tsx:107-109 | the name check holds exactly when the lower-cased query occurs at some position of the lower-cased name; an empty query matches every name |
| Diarias.CasaMinimo | src/app/page.tsx:110-112 | an empty minimum passes every record; a minimum that reads as NaN passes none; otherwise a record passes exactly when its amount is at least the minimum |
| Diarias.CasaMaximo | src/app/page.tsx:113-115 | an empty maximum passes every record; a maximum that reads as NaN passes none; otherwise a record passes exactly when its amount is at most the maximum |
| Diarias.Mantem | src/app/page.tsx:116 | the three checks together keep every record when all three fields are empty |
| Diarias.Filtrar | src/app/page.tsx:105-118 | the filtered list is an order-preserving subsequence of the records; a record is in it exactly when it is in the list and passes the name, minimum and maximum checks; each kept record appears as often as in the list |
| Diarias.FiltroVazioMantemTudo | src/app/page.tsx:107-116 | with the three filter fields empty, every record is kept |
| Diarias.FiltrarIdempotente | src/app/page.tsx:105-118 | filtering the filtered list again with the same fields changes nothing |
| Diarias.CasaNomeIgnoraCaixa | src/app/page.tsx:107-109 | upper-casing either the stored name or the query does not change whether the name matches |
| Diarias.MantemNaFaixa | src/app/page.tsx:107-116 | with the name field empty and both bounds numbers, a record is kept exactly when its amount lies between the two bounds |
| Diarias.ExemploFiltroPorFaixa | src/app/page.tsx:110-115 | minimum "100" and maximum "200" over R$ 50, R$ 150 and R$ 250 keep only the R$ 150 record |
| Diarias.ExemploFiltroComCentavos | src/app/page.tsx:110-112 | minimum "100.5" keeps a R$ 150 record and drops a R$ 100 one |
| Diarias.ExemploFiltroZerosFinais | src/app/page.tsx:110-112 | minimum "100.500" keeps a R$ 150 record |
| Diarias.TotalGasto | src/app/page.tsx:121-123 | the `reduce` from 0 equals the sum of the amounts of all records |
| Diarias.TotalGastoParticiona | src/app/page.tsx:121-123 | the total spent counts filtered-out records too: it is the sum over the kept records plus the sum over the discarded ones |
| Diarias.FiltradasNaoExcedemTotal | src/app/page.tsx:121-123 | with no negative amounts, the filtered records never add up to more than the total spent |
| Diarias.SaldoDisponivel | src/app/page.tsx:126 | balance plus total spent is the allotment; the balance is negative exactly when the total exceeds the allotment |
| Diarias.CorDoSaldo | src/app/page.tsx:179-181 | the balance is shown green exactly when it is zero or more |
| Diarias.ExemploSaldo | src/app/page.tsx:126 | a total of R$ 15.000 leaves R$ 45.000 (green); a total of R$ 65.000 leaves -R$ 5.000 (red) |
| Resumo.Nomes | src/app/page.tsx:133-135 | the dictionary keys have no repetition, and a name is a key exactly when some filtered record carries it |
| Resumo.Agrupar | src/app/page.tsx:130-138 | after the `forEach`, the keys are exactly the distinct names in first-seen order, and each key maps to the number of records with that name and the sum of their amounts |
| Resumo.Entradas | src/app/page.tsx:140-141 | one card per key, in the order of the keys, each showing its own key's count and sum |
| Resumo.InserirNaOrdem | src/app/page.tsx:142 | one insertion step of the sort adds the entry to the others and loses or duplicates nothing |
| Resumo.Ordenar | src/app/page.tsx:142 | the sort yields the entries, as a permutation, ordered by total, largest first |
| Resumo.OrdenarEstavel | src/app/page.tsx:142 | the sort is stable: for every total, the entries with that total keep their relative order |
| Resumo.ResumoPorMilitar | src/app/page.tsx:129-143 | the summary is the entries of the grouping, in first-seen order, sorted by `Ordenar` |
| Resumo.ResumoOrdenado | src/app/page.tsx:140-142 | the summary is sorted by total, largest first, and entries with equal totals appear in the order their names were first met |
| Resumo.ResumoUmPorNome | src/app/page.tsx:130-141 | the summary has exactly one entry per distinct name of the filtered records, with that name's count and sum; the counts add up to the number of filtered records |
| Resumo.ExemploResumo | src/app/page.tsx:129-143 | ALICE R$ 100, BOB R$ 50, ALICE R$ 200 give ALICE 2 / R$ 300 then BOB 1 / R$ 50 |
| Pagina.Recarregada | src/app/page.tsx:32-36 | a load replaces the list with the data on success and keeps the list on failure |
| Pagina.PedidoDeInsercao | src/app/page.tsx:43-48 | no request exactly when the name is blank or the value field is empty; otherwise an insert of the typed name upper-cased and trimmed and the parsed value |
| Pagina.InsercaoGuardada | src/app/page.tsx:43-47 | the insert is stopped exactly when the name is blank or the value field is empty; a request that is sent carries the typed name upper-cased and trimmed, which is non-empty, and the parsed value |
| Pagina.PedidoDeAtualizacao | src/app/page.tsx:81-87 | an update of the given id carrying the draft name upper-cased and trimmed and the parsed draft value |
| Pagina.AtualizacaoNormaliza | src/app/page.tsx:83-85 | the update keeps the id, writes the draft name upper-cased and trimmed and the parsed draft value; the name written is empty exactly when the draft was blank |
| Pagina.EdicaoIntactaRegravaORegistro | src/app/page.tsx:73-85 | saving an untouched edit of a record whose name is in normal form writes back the same name and amount |
| Pagina.SalvarSemGuarda | src/app/page.tsx:80-87 | a blank draft name and an empty draft value are sent as an empty name and NaN |
| Pagina.Home.constructor | src/app/page.tsx:9-18 | the initial state: no records, all text fields empty, no record being edited, no request sent |
| Pagina.Home.DiariasFiltradas | src/app/page.tsx:105-118 | the filtered list is an order-preserving subsequence of the records and holds exactly the records that pass the current filter fields |
| Pagina.Home.Total | src/app/page.tsx:121-123 | the total is the sum over the unfiltered records; it reads no filter field |
| Pagina.Home.Saldo | src/app/page.tsx:126 | the balance is the allotment minus the total |
| Pagina.Home.ResumoAtual | src/app/page.tsx:129-143 | the summary shown is the summary of the currently filtered records |
| Pagina.Home.Carregar | src/app/page.tsx:25-38 | one list request; the list is replaced on success and kept on failure |
| Pagina.Home.InserirDiaria | src/app/page.tsx:41-57 | a guarded insert sends nothing and changes nothing. Otherwise it sends the insert request. On success it clears both form fields and reloads. On failure it leaves fields and list as they were |
| Pagina.Home.ExcluirDiaria | src/app/page.tsx:60-70 | an unconfirmed delete sends nothing and changes nothing; a confirmed one sends the delete and reloads only on success |
| Pagina.Home.IniciarEdicao | src/app/page.tsx:73-77 | the record becomes the edit target, replacing any earlier one; the drafts hold its name and the text of its amount, which reads back as that amount |
| Pagina.Home.SalvarEdicao | src/app/page.tsx:80-95 | sends the update built from the drafts. On success it leaves edit mode and reloads. On failure the edit target and the list are unchanged |
| Pagina.Home.CancelarEdicao | src/app/page.tsx:98-102 | leaves edit mode and clears both drafts, without a request |
| Pagina.Home.LimparFiltros | src/app/page.tsx:265-268 | empties the three filter fields, after which the filtered list is the whole list |

## Left out

- Store I/O: the Supabase client, `async`/`await`, the `loading` flag and the `useEffect` that loads the list on mount. Each request is an entry in a log, and its outcome is a method parameter. The first load is the constructor followed by `Carregar`.
- The user's `confirm` answer is a boolean parameter. `alert` and `console.error` only report errors, so they are not modelled.
- `formatarReais`, `formatarData` and the progress-bar width are locale and display formatting done by foreign APIs.
- All JSX rendering, except the balance colour (`CorDoSaldo`) and the "Limpar" button's effect. `src/app/layout.tsx` is not part of this model.
- Amounts are whole numbers of centavos, not floating-point numbers of reais, so rounding in sums of fractional amounts is not modelled.
- Interpretar, Varrer: a numeral with more than two decimal places after its trailing zeros are dropped (such as "100.555") reads as NaN here. `parseFloat` gives a fraction of a centavo for it, which the filters would compare against and an insert would store. The number inputs step by 0.01, so such text is typed only by hand.
- Interpretar, Varrer: an exponent is not read. "1e3" reads as one real here, where `parseFloat` gives 1000. "Infinity" reads as NaN here, where `parseFloat` gives an infinite value.
- Mostrar: amounts of 10^21 reais and more, which `toString` writes in exponent form, are written in full here.
- Texto.MaiusculaChar, Texto.MinusculaChar: case mapping covers ASCII and the Latin-1 letters only. ß, ÿ and µ are left as they are, and letters beyond Latin-1 are not mapped, unlike the full Unicode mapping of `toUpperCase` / `toLowerCase`.
- Texto.EhEspaco: `trim`, and the leading-space skip of `parseFloat`, remove ASCII whitespace, no-break space and the byte-order mark, but not the other Unicode space separators or line and paragraph separators.
- Resumo.Agrupar: the key order of `Object.entries` is modelled as insertion order. JavaScript lists integer-like keys (such as a name "123") first. Keys that clash with `Object.prototype` members (such as "constructor") would misbehave at line 133. Neither case is modelled.
- The `Number(d.valor)` conversion at lines 122 and 137 is the identity here, since amounts are already numbers of centavos.
- Records without a numeric `valor` are assumed never to be returned by the store: every loaded record has an integer amount.
  - How one could arise: saving an edit with the value draft cleared sends NaN (`SalvarSemGuarda`), and a JSON request carries NaN as null. The store is assumed to refuse such a record.
  - What the source would do with a null `valor`:
    - the total (line 122) and the summary (line 137) add it as 0;
    - the minimum and maximum checks (lines 111 and 114) compare it as 0;
    - `iniciarEdicao` throws on `valor.toString()` (line 76).
  - None of this is modelled. `Pagina.Home.IniciarEdicao`'s promise that the value draft reads back as the amount relies on the assumption.
