/** The counters of a serial context (serial.go) that the client and server loops keep. */
module Serial {
  datatype Drops = Drops(crcErrors: nat, remoteErrors: nat, otherErrors: nat, idDrops: nat, otherDrops: nat) {
    function Crc(): Drops { this.(crcErrors := crcErrors + 1) }

    function Remote(): Drops { this.(remoteErrors := remoteErrors + 1) }

    function Error(): Drops { this.(otherErrors := otherErrors + 1) }

    function Id(): Drops { this.(idDrops := idDrops + 1) }

    function Drop(): Drops { this.(otherDrops := otherDrops + 1) }
  }

  const NO_DROPS := Drops(0, 0, 0, 0, 0)
}
