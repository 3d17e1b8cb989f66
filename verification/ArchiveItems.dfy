/** What travels between the threads: headers and data blocks (src/queue.h). */
module ArchiveItems {
  import opened Bytes
  import Dico

  datatype Block = Block(
    data: bytes,        // as it is at the moment: clear, compressed or encrypted
    realSize: u32,      // size in the clear
    offset: u64,        // offset in the file
    arcSum: u32,        // Fletcher sum of the stored form
    arSize: u32,        // size of the stored form
    compAlgo: u16,
    compSize: u32,      // size that deciphering must give
    cryptAlgo: u16,
    fsid: u16)

  /** No data block is larger. */
  const MAX_BLKSIZE: u32 := 921600

  /** The kinds of header, told apart by a four-byte magic. */
  datatype Magic = VOLH | VOLF | MAIN | FSIN | FSYB | DIRS | OBJT | BLKH | FILF | DATF

  datatype Header = Header(magic: Magic, fsid: u16, dico: seq<Dico.DicoItem>)

  datatype Item = BlockItem(block: Block) | HeaderItem(header: Header)

  datatype Status = Todo | Progress | Done

  /** What a producer adds to the queue: a block may arrive already done (a corrupt one, replaced by zeros). */
  datatype Input = Input(item: Item, status: Status)
}
