/** What the trainer and the codec guarantee together. */
module BpeTheorems {
  import opened Common
  import opened Bpe
  import opened BpeCodec
  import opened BpeTrainer

  /** What training always produces: grounded, pairwise distinct merges, no more than the vocabulary allows. */
  lemma TrainedMergesOk(data: seq<byte>, vocabSize: nat)
    requires vocabSize >= 256
    ensures var merges := NaiveTrain(Corpus(data), vocabSize - 256, 0);
            Grounded(merges) && NoDup(merges) && 256 + |merges| <= vocabSize
  {
    LearnedShape(Corpus(data), vocabSize - 256, 0);
  }

  /** Encoding a training chunk gives the trainer's own final segmentation of it, and decodes back to the chunk. */
  lemma EncodingIsTrainedSegmentation(data: seq<byte>, vocabSize: nat, t: Tokenizer, j: nat)
    requires vocabSize >= 256 && Valid(t) && t.merges == NaiveTrain(Corpus(data), vocabSize - 256, 0)
    requires j < |Chunks(data)|
    ensures EncodeChunk(t.rank, Ids(Chunks(data)[j])) == MergedCorpus(Corpus(data), t.merges)[j]
    ensures Decode(t, MergedCorpus(Corpus(data), t.merges)[j]) == Chunks(data)[j]
  {
    TrainedMergesOk(data, vocabSize);
    EncodeIsPasses(t, Ids(Chunks(data)[j]));
    EncodeKeepsMeaning(t, Ids(Chunks(data)[j]));
    DecodeBytes(t, Chunks(data)[j]);
  }

  /** Train, build the codec, encode the corpus and decode it: the corpus comes back. */
  method TrainAndRoundTrip(data: seq<byte>, vocabSize: nat, text: seq<byte>) returns (ids: seq<nat>, back: seq<byte>)
    requires vocabSize >= 256
    ensures back == text && Below(ids, vocabSize)
  {
    var merges := TrainBpe(data, vocabSize);
    TrainedMergesOk(data, vocabSize);
    var tok := MakeTokenizer(merges);
    var t := tok.value;
    ids := EncodeLoop(t, text);
    back := DecodeLoop(t, ids);
    RoundTrip(t, text);
  }
}
