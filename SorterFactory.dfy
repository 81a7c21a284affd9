/**
 * `org.cp.elements.util.sort.SorterFactory`: maps a `SortType` tag to a new
 * sorter object. The sorters themselves are not modelled; a sorter is known
 * here only by which algorithm it implements.
 */
module SorterFactory {
  import opened Runtime

  /** The `SortType` tags, with the library's own spelling of `UNKONWN`. */
  datatype SortType =
    | BubbleSort
    | CombSort
    | HeapSort
    | InsertionSort
    | MergeSort
    | QuickSort
    | SelectionSort
    | ShellSort
    | Unkonwn
  {
    /** The enum constant's name, as `%s` prints it. */
    function ConstantName(): string {
      match this
      case BubbleSort => "BUBBLE_SORT"
      case CombSort => "COMB_SORT"
      case HeapSort => "HEAP_SORT"
      case InsertionSort => "INSERTION_SORT"
      case MergeSort => "MERGE_SORT"
      case QuickSort => "QUICK_SORT"
      case SelectionSort => "SELECTION_SORT"
      case ShellSort => "SHELL_SORT"
      case Unkonwn => "UNKONWN"
    }
  }

  /** The sorter classes of the library. */
  datatype Algorithm = Bubble | Comb | Heap | Insertion | Merge | Quick | Selection | Shell

  /** A sorter object; which algorithm it runs is all the factory decides. */
  class Sorter {
    const algorithm: Algorithm

    constructor (algorithm: Algorithm)
      ensures this.algorithm == algorithm
    {
      this.algorithm := algorithm;
    }
  }

  /** The tags the switch has a case for: all but `COMB_SORT` and `UNKONWN`. */
  predicate Supported(t: SortType)
    ensures Supported(t) <==> t in {BubbleSort, HeapSort, InsertionSort, MergeSort, QuickSort, SelectionSort, ShellSort}
  {
    t != CombSort && t != Unkonwn
  }

  /** The text around the tag in the default branch's message. */
  const MessagePrefix := "The SortType ("
  const MessageSuffix := ") is not supported by the SorterFactory!"

  /** The IllegalArgumentException of the default branch; it names the tag as given, so null prints "null". */
  function Unsupported(t: Option<SortType>): (e: Exception)
    ensures e.kind == IllegalArgumentException
    ensures |e.message| >= |MessagePrefix| + |MessageSuffix|
    ensures e.message[..|MessagePrefix|] == MessagePrefix
    ensures e.message[|e.message| - |MessageSuffix|..] == MessageSuffix
    ensures e.message[|MessagePrefix|..|e.message| - |MessageSuffix|] == TagText(t)
  {
    var message := MessagePrefix + TagText(t) + MessageSuffix;
    assert message[..|MessagePrefix|] == MessagePrefix;
    assert message[|MessagePrefix|..|message| - |MessageSuffix|] == TagText(t);
    assert message[|message| - |MessageSuffix|..] == MessageSuffix;
    Exception(IllegalArgumentException, message)
  }

  /** How `%s` prints a tag: its constant name, or "null". */
  function TagText(t: Option<SortType>): string {
    match t
    case None => "null"
    case Some(s) => s.ConstantName()
  }

  /** No two tags, null included, print alike. */
  lemma TagTextInjective(t1: Option<SortType>, t2: Option<SortType>)
    requires TagText(t1) == TagText(t2)
    ensures t1 == t2
  {
  }

  /** Different tags, null included, give different messages, so the message identifies the tag. */
  lemma UnsupportedNamesTheTag(t1: Option<SortType>, t2: Option<SortType>)
    requires Unsupported(t1) == Unsupported(t2)
    ensures t1 == t2
  {
    TagTextInjective(t1, t2);
  }

  /** The switch of `createSorter`, after a null tag has been replaced by `UNKONWN`. */
  function AlgorithmFor(t: Option<SortType>): (r: Result<Algorithm, Exception>)
    ensures r.Success? <==> t.Some? && Supported(t.value)
    ensures r.Failure? ==> r.error == Unsupported(t)
  {
    match t.GetOr(Unkonwn)
    case BubbleSort => Success(Bubble)
    case HeapSort => Success(Heap)
    case InsertionSort => Success(Insertion)
    case MergeSort => Success(Merge)
    case QuickSort => Success(Quick)
    case SelectionSort => Success(Selection)
    case ShellSort => Success(Shell)
    case _ => Failure(Unsupported(t))
  }

  /** `createSorter(type)`: a new sorter for a supported tag, IllegalArgumentException otherwise. */
  method CreateSorter(t: Option<SortType>) returns (r: Result<Sorter, Exception>)
    ensures r.Success? <==> AlgorithmFor(t).Success?
    ensures r.Success? ==> fresh(r.value) && r.value.algorithm == AlgorithmFor(t).value
    ensures r.Failure? ==> r.error == Unsupported(t)
  {
    var algorithm := AlgorithmFor(t);
    match algorithm
    case Failure(e) =>
      r := Failure(e);
    case Success(a) =>
      var sorter := new Sorter(a);
      r := Success(sorter);
  }

  /** Each supported tag gets the sorter of its own name. */
  lemma SupportedTags()
    ensures AlgorithmFor(Some(BubbleSort)) == Success(Bubble)
    ensures AlgorithmFor(Some(HeapSort)) == Success(Heap)
    ensures AlgorithmFor(Some(InsertionSort)) == Success(Insertion)
    ensures AlgorithmFor(Some(MergeSort)) == Success(Merge)
    ensures AlgorithmFor(Some(QuickSort)) == Success(Quick)
    ensures AlgorithmFor(Some(SelectionSort)) == Success(Selection)
    ensures AlgorithmFor(Some(ShellSort)) == Success(Shell)
  {
  }

  /** Distinct supported tags give distinct algorithms. */
  lemma DistinctTagsDistinctAlgorithms(t1: SortType, t2: SortType)
    requires Supported(t1) && Supported(t2) && t1 != t2
    ensures AlgorithmFor(Some(t1)).value != AlgorithmFor(Some(t2)).value
  {
  }

  /** No tag, not even `COMB_SORT`, produces a comb sort. */
  lemma NeverCombSort(t: Option<SortType>)
    ensures AlgorithmFor(t) != Success(Comb)
  {
  }

  /** A null tag is rejected, and the message prints it as "null". */
  lemma NullTagRejected()
    ensures AlgorithmFor(None) == Failure(Exception(IllegalArgumentException, MessagePrefix + "null" + MessageSuffix))
  {
  }

  /** `UNKONWN` and `COMB_SORT` are rejected, each named in the message. */
  lemma UnknownAndCombTagsRejected()
    ensures AlgorithmFor(Some(Unkonwn))
         == Failure(Exception(IllegalArgumentException, MessagePrefix + "UNKONWN" + MessageSuffix))
    ensures AlgorithmFor(Some(CombSort))
         == Failure(Exception(IllegalArgumentException, MessagePrefix + "COMB_SORT" + MessageSuffix))
  {
  }
}
