/**
 * The gluing validity policy of Theory.h: the structural s-i ban and the four hard-coded
 * parameter/port tables consulted by TheoryGraph::connect.
 */
module Rules {
  import opened Kinds

  /** forbidden_: a side link may never be glued directly to an interior link. */
  function Forbidden(a: Kind, b: Kind): (r: bool)
    ensures r <==> {a, b} == {SideLink, InteriorLink}
  {
    (a == SideLink && b == InteriorLink) || (a == InteriorLink && b == SideLink)
  }

  /** Side-link parameters that isBannedPair_ mentions. */
  predicate InPairTable(p: int)
  {
    p == 11 || p == 22 || p == 33 || p == 331 || p == 44 || p == 55
    || p == 991 || p == 9920 || p == 9902 || p == 993 || p == 91 || p == 92
    || p == 94 || p == 95 || p == 96 || p == 97 || p == 98 || p == 99
    || p == 910 || p == 911 || p == 912 || p == 913 || p == 914 || p == 915
    || p == 916 || p == 917 || p == 918 || p == 919 || p == 920 || p == 921
    || p == 922 || p == 923 || p == 924 || p == 925 || p == 926 || p == 927
    || p == 928 || p == 929 || p == 930 || p == 931 || p == 932 || p == 933
    || p == 934 || p == 935 || p == 936 || p == 937 || p == 938 || p == 939
    || p == 940 || p == 941 || p == 942 || p == 943 || p == 944 || p == 945
    || p == 946 || p == 947 || p == 948 || p == 949 || p == 950 || p == 951
    || p == 952 || p == 953 || p == 954 || p == 955 || p == 956 || p == 957
    || p == 1188 || p == 1088 || p == 988 || p == 1888 || p == 788 || p == 688
    || p == 588 || p == 488 || p == 388 || p == 8811 || p == 8810 || p == 889
    || p == 8881 || p == 887 || p == 886 || p == 885 || p == 884 || p == 883
    || p == 99910 || p == 99901 || p == 99920 || p == 99902 || p == 99930 || p == 99903
    || p == 994 || p == 995 || p == 996 || p == 997 || p == 998 || p == 999
    || p == 9910 || p == 9911 || p == 9912 || p == 9913 || p == 9914 || p == 9915
    || p == 9916 || p == 9917
  }

  /** Side-link parameters that isBannedPortPair_ mentions. */
  predicate InPortTable(p: int)
  {
    p == 32 || p == 23 || p == 42 || p == 24 || p == 43 || p == 34
    || p == 53 || p == 35 || p == 54 || p == 45 || p == 99910 || p == 99901
    || p == 99920 || p == 99902 || p == 99930 || p == 99903 || p == 288 || p == 388
    || p == 488 || p == 588 || p == 688 || p == 788 || p == 1888 || p == 988
    || p == 1088 || p == 1188 || p == 882 || p == 883 || p == 884 || p == 885
    || p == 886 || p == 887 || p == 8881 || p == 889 || p == 8810 || p == 8811
  }

  /** Interior-link parameters that isBannedPortPairIN_ mentions. */
  predicate InPortTableIN(p: int)
  {
    p == 32 || p == 23 || p == 42 || p == 24 || p == 43 || p == 34
    || p == 53 || p == 35 || p == 54 || p == 45
  }

  /** Interior-link parameters that isBannedPairIN_ mentions. */
  predicate InPairTableIN(p: int)
  {
    p == 11 || p == 22 || p == 33 || p == 331 || p == 44 || p == 55
  }

  /** isBannedPair_: side-node pairs forbidden whatever the ports. */
  function IsBannedPair(sideParam: int, nodeParam: int): (r: bool)
    ensures r ==> InPairTable(sideParam)
  {
    (sideParam == 11 && nodeParam > 4)
    || (sideParam == 22 && nodeParam > 6)
    || (sideParam == 33 && nodeParam > 8)
    || (sideParam == 331 && nodeParam > 6)
    || (sideParam == 44 && (nodeParam > 8 || nodeParam < 6))
    || (sideParam == 55 && nodeParam < 6)
    || (sideParam == 991 && nodeParam > 4)
    || (sideParam == 9920 && nodeParam > 4)
    || (sideParam == 9902 && nodeParam > 4)
    || (sideParam == 993 && (nodeParam > 8 || nodeParam < 6))
    || (sideParam == 91 && (nodeParam > 8|| nodeParam < 8))
    || (sideParam == 92 && nodeParam > 4)
    || (sideParam == 94 && nodeParam < 7)
    || (sideParam == 95 && nodeParam < 7)
    || (sideParam == 96 && nodeParam < 6)
    || (sideParam == 97 && nodeParam > 8)
    || (sideParam == 98 && nodeParam > 8)
    || (sideParam == 99 && (nodeParam > 8 || nodeParam < 6))
    || (sideParam == 910 && (nodeParam > 8 || nodeParam < 7))
    || (sideParam == 911 && (nodeParam < 6 || nodeParam > 8))
    || (sideParam == 912 && nodeParam > 6)
    || (sideParam == 913 && nodeParam != 6)
    || (sideParam == 914 && nodeParam != 6)
    || (sideParam == 915 && nodeParam > 6)
    || (sideParam == 916 && nodeParam > 4)
    || (sideParam == 917 && nodeParam > 4)
    || (sideParam == 918 && nodeParam < 6)
    || (sideParam == 919 && nodeParam < 7)
    || (sideParam == 920 && nodeParam < 6)
    || (sideParam == 921 && nodeParam < 6)
    || (sideParam == 922 && nodeParam < 6)
    || (sideParam == 923 && nodeParam < 7)
    || (sideParam == 924 && nodeParam > 8)
    || (sideParam == 925 && nodeParam > 8)
    || (sideParam == 926 && (nodeParam < 6 || nodeParam > 8 ))
    || (sideParam == 927 && nodeParam > 8)
    || (sideParam == 928 && nodeParam > 8)
    || (sideParam == 929 && nodeParam > 8)
    || (sideParam == 930 && (nodeParam < 7 || nodeParam > 8 ))
    || (sideParam == 931 && (nodeParam < 7 || nodeParam > 8 ))
    || (sideParam == 932 && (nodeParam < 7 || nodeParam > 8 ))
    || (sideParam == 933 && (nodeParam < 6 || nodeParam > 8 ))
    || (sideParam == 934 && nodeParam > 6)
    || (sideParam == 935 && (nodeParam < 6 || nodeParam > 6 ))
    || (sideParam == 936 && nodeParam > 6)
    || (sideParam == 937 && nodeParam > 6)
    || (sideParam == 938 && nodeParam > 6)
    || (sideParam == 939 && (nodeParam < 6 || nodeParam > 6 ))
    || (sideParam == 940 && nodeParam > 4)
    || (sideParam == 941 && nodeParam > 4)
    || (sideParam == 942 && nodeParam > 4)
    || (sideParam == 943 && nodeParam > 6)
    || (sideParam == 944 && (nodeParam < 6 || nodeParam > 8 ))
    || (sideParam == 945 && nodeParam < 6)
    || (sideParam == 946 && nodeParam < 7)
    || (sideParam == 947 && nodeParam < 6)
    || (sideParam == 948 && nodeParam < 9)
    || (sideParam == 949 && nodeParam < 9)
    || (sideParam == 950 && nodeParam < 7)
    || (sideParam == 951 && (nodeParam < 6 || nodeParam > 8 ))
    || (sideParam == 952 && (nodeParam < 6 || nodeParam > 8 ))
    || (sideParam == 953 && (nodeParam < 7 || nodeParam > 8 ))
    || (sideParam == 954 && (nodeParam < 7 || nodeParam > 8 ))
    || (sideParam == 955 && (nodeParam < 6 || nodeParam > 6 ))
    || (sideParam == 956 && nodeParam > 6)
    || (sideParam == 957 && (nodeParam < 6 || nodeParam > 6 ))
    || (sideParam == 1188 && nodeParam < 12)
    || (sideParam == 1088 && nodeParam < 11)
    || (sideParam == 988 && nodeParam < 10)
    || (sideParam == 1888 && nodeParam < 9)
    || (sideParam == 788 && nodeParam < 8)
    || (sideParam == 688 && nodeParam < 7)
    || (sideParam == 588 && nodeParam < 6)
    || (sideParam == 488 && nodeParam < 5)
    || (sideParam == 388 && nodeParam < 4)
    || (sideParam == 8811 && nodeParam < 12)
    || (sideParam == 8810 && nodeParam < 11)
    || (sideParam == 889 && nodeParam < 10)
    || (sideParam == 8881 && nodeParam < 9)
    || (sideParam == 887 && nodeParam < 8)
    || (sideParam == 886 && nodeParam < 7)
    || (sideParam == 885 && nodeParam < 6)
    || (sideParam == 884 && nodeParam < 5)
    || (sideParam == 883 && nodeParam < 4)
    || (sideParam == 99910 && nodeParam > 6)
    || (sideParam == 99901 && nodeParam > 6)
    || (sideParam == 99920 && (nodeParam < 6 || nodeParam > 8 ))
    || (sideParam == 99902 && (nodeParam < 6 || nodeParam > 8 ))
    || (sideParam == 99930 && nodeParam < 6)
    || (sideParam == 99903 && nodeParam < 6)
    || (sideParam == 994 && (nodeParam < 6 || nodeParam > 6 ))
    || (sideParam == 995 && (nodeParam < 6 || nodeParam > 8 ))
    || (sideParam == 996 && nodeParam < 7)
    || (sideParam == 997 && (nodeParam < 7 || nodeParam > 8 ))
    || (sideParam == 998 && nodeParam < 7)
    || (sideParam == 999 && nodeParam < 9)
    || (sideParam == 9910 && (nodeParam < 6 || nodeParam > 6 ))
    || (sideParam == 9911 && (nodeParam < 7 || nodeParam > 8 ))
    || (sideParam == 9912 && nodeParam < 6)
    || (sideParam == 9913 && nodeParam > 8)
    || (sideParam == 9914 && (nodeParam < 6 || nodeParam > 8 ))
    || (sideParam == 9915 && nodeParam < 7)
    || (sideParam == 9916 && (nodeParam < 6 || nodeParam > 8 ))
    || (sideParam == 9917 && (nodeParam < 6 || nodeParam > 6 ))
  }

  /** isBannedPortPair_: side-node pairs forbidden only at one port assignment. */
  function IsBannedPortPair(sideParam: int, nodeParam: int, sidePort: Port, nodePort: Port): (r: bool)
    ensures r ==> InPortTable(sideParam)
    ensures r ==> (sidePort == Right && nodePort == Left) || (sidePort == Left && nodePort == Right)
  {
    (sideParam == 32 && nodeParam > 4 && sidePort == Right && nodePort == Left)
    || (sideParam == 23 && nodeParam > 4 && sidePort == Left && nodePort == Right)
    || (sideParam == 23 && nodeParam > 8 && sidePort == Right && nodePort == Left)
    || (sideParam == 32 && nodeParam > 8 && sidePort == Left && nodePort == Right)
    || (sideParam == 42 && nodeParam > 4 && sidePort == Right && nodePort == Left)
    || (sideParam == 24 && nodeParam > 4 && sidePort == Left && nodePort == Right)
    || (sideParam == 42 && nodeParam < 6 && sidePort == Left && nodePort == Right)
    || (sideParam == 24 && nodeParam < 6 && sidePort == Right && nodePort == Left)
    || (sideParam == 43 && nodeParam > 6 && sidePort == Right && nodePort == Left)
    || (sideParam == 43 && (nodeParam < 6 || nodeParam > 8) && sidePort == Left && nodePort == Right)
    || (sideParam == 34 && nodeParam > 6 && sidePort == Left && nodePort == Right)
    || (sideParam == 34 && (nodeParam < 6 || nodeParam > 8) && sidePort == Right && nodePort == Left)
    || (sideParam == 53 && nodeParam > 6 && sidePort == Right && nodePort == Left)
    || (sideParam == 53 && nodeParam < 6 && sidePort == Left && nodePort == Right)
    || (sideParam == 35 && nodeParam > 6 && sidePort == Left && nodePort == Right)
    || (sideParam == 35 && nodeParam < 6 && sidePort == Right && nodePort == Left)
    || (sideParam == 54 && (nodeParam > 8 || nodeParam < 6) && sidePort == Right && nodePort == Left)
    || (sideParam == 54 && nodeParam < 6 && sidePort == Left && nodePort == Right)
    || (sideParam == 45 && (nodeParam > 8 || nodeParam < 6) && sidePort == Left && nodePort == Right)
    || (sideParam == 45 && nodeParam < 6 && sidePort == Right && nodePort == Left)
    || (sideParam == 99910 && nodeParam > 3 && sidePort == Left && nodePort == Right)
    || (sideParam == 99901 && nodeParam > 3 && sidePort == Right && nodePort == Left)
    || (sideParam == 99920 && nodeParam > 3 && sidePort == Left && nodePort == Right)
    || (sideParam == 99902 && nodeParam > 3 && sidePort == Right && nodePort == Left)
    || (sideParam == 99930 && nodeParam > 3 && sidePort == Left && nodePort == Right)
    || (sideParam == 99903 && nodeParam > 3 && sidePort == Right && nodePort == Left)
    || (sideParam == 288 && nodeParam > 0 && sidePort == Right && nodePort == Left)
    || (sideParam == 388 && nodeParam > 0 && sidePort == Right && nodePort == Left)
    || (sideParam == 488 && nodeParam > 0 && sidePort == Right && nodePort == Left)
    || (sideParam == 588 && nodeParam > 0 && sidePort == Right && nodePort == Left)
    || (sideParam == 688 && nodeParam > 0 && sidePort == Right && nodePort == Left)
    || (sideParam == 788 && nodeParam > 0 && sidePort == Right && nodePort == Left)
    || (sideParam == 1888 && nodeParam > 0 && sidePort == Right && nodePort == Left)
    || (sideParam == 988 && nodeParam > 0 && sidePort == Right && nodePort == Left)
    || (sideParam == 1088 && nodeParam > 0 && sidePort == Right && nodePort == Left)
    || (sideParam == 1188 && nodeParam > 0 && sidePort == Right && nodePort == Left)
    || (sideParam == 882 && nodeParam > 0 && sidePort == Left && nodePort == Right)
    || (sideParam == 883 && nodeParam > 0 && sidePort == Left && nodePort == Right)
    || (sideParam == 884 && nodeParam > 0 && sidePort == Left && nodePort == Right)
    || (sideParam == 885 && nodeParam > 0 && sidePort == Left && nodePort == Right)
    || (sideParam == 886 && nodeParam > 0 && sidePort == Left && nodePort == Right)
    || (sideParam == 887 && nodeParam > 0 && sidePort == Left && nodePort == Right)
    || (sideParam == 8881 && nodeParam > 0 && sidePort == Left && nodePort == Right)
    || (sideParam == 889 && nodeParam > 0 && sidePort == Left && nodePort == Right)
    || (sideParam == 8810 && nodeParam > 0 && sidePort == Left && nodePort == Right)
    || (sideParam == 8811 && nodeParam > 0 && sidePort == Left && nodePort == Right)
  }

  /** isBannedPortPairIN_: interior-node pairs forbidden only at one port assignment. */
  function IsBannedPortPairIN(sideParam: int, nodeParam: int, sidePort: Port, nodePort: Port): (r: bool)
    ensures r ==> InPortTableIN(sideParam)
    ensures r ==> (sidePort == Right && nodePort == Left) || (sidePort == Left && nodePort == Right)
  {
    (sideParam == 32 && nodeParam > 4 && sidePort == Right && nodePort == Left)
    || (sideParam == 23 && nodeParam > 4 && sidePort == Left && nodePort == Right)
    || (sideParam == 23 && nodeParam > 8 && sidePort == Right && nodePort == Left)
    || (sideParam == 32 && nodeParam > 8 && sidePort == Left && nodePort == Right)
    || (sideParam == 42 && nodeParam > 4 && sidePort == Right && nodePort == Left)
    || (sideParam == 24 && nodeParam > 4 && sidePort == Left && nodePort == Right)
    || (sideParam == 42 && nodeParam < 6 && sidePort == Left && nodePort == Right)
    || (sideParam == 24 && nodeParam < 6 && sidePort == Right && nodePort == Left)
    || (sideParam == 43 && nodeParam > 6 && sidePort == Right && nodePort == Left)
    || (sideParam == 43 && (nodeParam < 6 || nodeParam > 8) && sidePort == Left && nodePort == Right)
    || (sideParam == 34 && nodeParam > 6 && sidePort == Left && nodePort == Right)
    || (sideParam == 34 && (nodeParam < 6 || nodeParam > 8) && sidePort == Right && nodePort == Left)
    || (sideParam == 53 && nodeParam > 6 && sidePort == Right && nodePort == Left)
    || (sideParam == 53 && nodeParam < 6 && sidePort == Left && nodePort == Right)
    || (sideParam == 35 && nodeParam > 6 && sidePort == Left && nodePort == Right)
    || (sideParam == 35 && nodeParam < 6 && sidePort == Right && nodePort == Left)
    || (sideParam == 54 && (nodeParam > 8 || nodeParam < 6) && sidePort == Right && nodePort == Left)
    || (sideParam == 54 && nodeParam < 6 && sidePort == Left && nodePort == Right)
    || (sideParam == 45 && (nodeParam > 8 || nodeParam < 6) && sidePort == Left && nodePort == Right)
    || (sideParam == 45 && nodeParam < 6 && sidePort == Right && nodePort == Left)
  }

  /** isBannedPairIN_: interior-node pairs forbidden whatever the ports. */
  function IsBannedPairIN(interiorParam: int, nodeParam: int): (r: bool)
    ensures r ==> InPairTableIN(interiorParam)
  {
    (interiorParam == 11 && nodeParam > 4)
    || (interiorParam == 22 && nodeParam > 6)
    || (interiorParam == 33 && nodeParam > 8)
    || (interiorParam == 331 && nodeParam > 6)
    || (interiorParam == 44 && (nodeParam > 8 || nodeParam < 6))
    || (interiorParam == 55 && nodeParam < 6)
  }

  lemma {:induction false} ForbiddenSymmetric(a: Kind, b: Kind)
    ensures Forbidden(a, b) == Forbidden(b, a)
  {
  }

  /** Side link 11 tolerates nodes up to 4 only. */
  lemma {:induction false} SideParam11(nodeParam: int)
    ensures IsBannedPair(11, nodeParam) <==> nodeParam > 4
  {
  }

  /** Side link 44 is allowed exactly on nodes 6..8. */
  lemma {:induction false} SideParam44(nodeParam: int)
    ensures IsBannedPair(44, nodeParam) <==> !(6 <= nodeParam <= 8)
  {
  }

  /** Side link 913 is allowed on node 6 only. */
  lemma {:induction false} SideParam913(nodeParam: int)
    ensures IsBannedPair(913, nodeParam) <==> nodeParam != 6
  {
  }

  /** A Custom port on either side never trips a port-specific table. */
  lemma {:induction false} PortTablesIgnoreCustom(linkParam: int, nodeParam: int, linkPort: Port, nodePort: Port)
    requires linkPort == Custom || nodePort == Custom
    ensures !IsBannedPortPair(linkParam, nodeParam, linkPort, nodePort)
    ensures !IsBannedPortPairIN(linkParam, nodeParam, linkPort, nodePort)
  {
  }

  /** The interior-link tables repeat the side-link rows for the parameters they mention. */
  lemma {:induction false} InteriorTablesAgree(linkParam: int, nodeParam: int, linkPort: Port, nodePort: Port)
    ensures InPairTableIN(linkParam) ==>
      IsBannedPairIN(linkParam, nodeParam) == IsBannedPair(linkParam, nodeParam)
    ensures InPortTableIN(linkParam) ==>
      IsBannedPortPairIN(linkParam, nodeParam, linkPort, nodePort)
        == IsBannedPortPair(linkParam, nodeParam, linkPort, nodePort)
  {
  }
}
